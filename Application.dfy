/** The application component: the editor state, the guards in front of an
    analysis, the dispatch to the six analyses, what an analysis leaves in the
    history, and restoring the editor from a history entry. */
module Application {
  import opened Wrappers
  import opened JsStrings
  import Storage
  import Gemini
  import Modes

  /** The text that joins the two snippets of a comparison into one history entry. */
  const COMPARISON_SEPARATOR := "\n\n--- COMPARISON ---\n\n"
  /** A first snippet that ends in the separator minus its two final line breaks. */
  const STRADDLING_SNIPPET := "x\n\n--- COMPARISON ---"

  const MISSING_CODE_MESSAGE := "Please enter some code to analyze"
  const MISSING_SNIPPETS_MESSAGE := "Please enter both code snippets for comparison"
  const UNKNOWN_MODE_MESSAGE := "Unknown analysis mode"
  const FALLBACK_ERROR_MESSAGE := "An error occurred during analysis"
  const CONNECTION_ERROR_PREFIX := "API Connection Error: "

  const DEFAULT_LANGUAGE := "javascript"
  const DEFAULT_DIFFICULTY := "intermediate"
  const LIGHT := "light"
  const DARK := "dark"

  // Themes

  /** The theme after a toggle: `'dark'` from `'light'`, `'light'` from anything else. */
  function Toggled(theme: string): (t: string)
    ensures t == LIGHT || t == DARK
    ensures t == DARK <==> theme == LIGHT
  {
    if theme == LIGHT then DARK else LIGHT
  }

  /** Toggling twice gives back either of the two themes. */
  lemma ToggleTwice(theme: string)
    requires theme == LIGHT || theme == DARK
    ensures Toggled(Toggled(theme)) == theme
    ensures Toggled(theme) != theme
  {
    assert DARK[0] != LIGHT[0];
  }

  // Comparison snippets

  /** The code a comparison stores in the history: both snippets around the separator. */
  function JoinSnippets(code1: string, code2: string): (r: string)
    ensures |r| == |code1| + |COMPARISON_SEPARATOR| + |code2|
    ensures r[..|code1|] == code1
    ensures OccursAt(r, COMPARISON_SEPARATOR, |code1|)
    ensures r[|code1| + |COMPARISON_SEPARATOR|..] == code2
  {
    code1 + COMPARISON_SEPARATOR + code2
  }

  /** The two snippets read back from a stored comparison: the first two pieces
      of splitting at the separator, the second `''` when there is none. */
  function SplitSnippets(code: string): (r: (string, string))
    ensures Contains(code, r.0) && (r.1 != "" ==> Contains(code, r.1))
    ensures !Contains(code, COMPARISON_SEPARATOR) ==> r == (code, "")
  {
    var parts := Split(code, COMPARISON_SEPARATOR);
    SplitJoin(code, COMPARISON_SEPARATOR);
    SplitPieces(code, COMPARISON_SEPARATOR);
    (parts[0], if |parts| > 1 then parts[1] else "")
  }

  /** Storing a comparison and reading it back gives both snippets, provided
      the first separator in the stored text is the one the join put there
      and the second snippet holds no separator. */
  lemma {:induction false} SnippetsRoundTrip(code1: string, code2: string)
    requires IndexOf(JoinSnippets(code1, code2), COMPARISON_SEPARATOR) == Some(|code1|)
    requires !Contains(code2, COMPARISON_SEPARATOR)
    ensures SplitSnippets(JoinSnippets(code1, code2)) == (code1, code2)
  {
    var sep := COMPARISON_SEPARATOR;
    var joined := JoinSnippets(code1, code2);
    assert joined[..|code1|] == code1;
    assert joined[|code1| + |sep|..] == code2;
    assert Split(code2, sep) == [code2];
    assert Split(joined, sep) == [code1] + [code2];
  }

  /** A first snippet that holds the separator does not survive the round trip. */
  lemma FirstSnippetLost(code1: string, code2: string)
    requires Contains(code1, COMPARISON_SEPARATOR)
    ensures SplitSnippets(JoinSnippets(code1, code2)).0 != code1
  {
    var sep := COMPARISON_SEPARATOR;
    var joined := JoinSnippets(code1, code2);
    var i: nat :| i <= |code1| && OccursAt(code1, sep, i);
    assert joined[i..i + |sep|] == code1[i..i + |sep|];
    assert OccursAt(joined, sep, i);
    var k := IndexOf(joined, sep).value;
    assert Split(joined, sep)[0] == joined[..k];
  }

  /** Nor does a second snippet that holds the separator. */
  lemma SecondSnippetLost(code1: string, code2: string)
    requires IndexOf(JoinSnippets(code1, code2), COMPARISON_SEPARATOR) == Some(|code1|)
    requires Contains(code2, COMPARISON_SEPARATOR)
    ensures SplitSnippets(JoinSnippets(code1, code2)).1 != code2
  {
    var sep := COMPARISON_SEPARATOR;
    var joined := JoinSnippets(code1, code2);
    assert joined[|code1| + |sep|..] == code2;
    var k := IndexOf(code2, sep).value;
    assert Split(joined, sep) == [joined[..|code1|]] + Split(code2, sep);
    assert Split(code2, sep)[0] == code2[..k];
  }

  /** A first snippet that ends in the separator without its final line breaks
      holds no separator, yet the join puts a separator across its end, so
      reading back cuts it after its first character. */
  lemma StraddlingSnippetLost(code2: string)
    ensures !Contains(STRADDLING_SNIPPET, COMPARISON_SEPARATOR)
    ensures SplitSnippets(JoinSnippets(STRADDLING_SNIPPET, code2)).0 == "x"
  {
    var sep := COMPARISON_SEPARATOR;
    assert |STRADDLING_SNIPPET| < |sep|;
    assert STRADDLING_SNIPPET == "x" + sep[..|sep| - 2];
    assert sep[|sep| - 2..] == sep[..2];
    OverlapCut('x', sep, code2);
  }

  /** When a separator ends in its own first two characters, a text made of
      one other character, the separator without its last two characters and
      then the separator splits after that one character. */
  lemma OverlapCut(x: char, sep: string, rest: string)
    requires |sep| >= 2 && sep[0] != x && sep[|sep| - 2..] == sep[..2]
    ensures Split([x] + sep[..|sep| - 2] + sep + rest, sep)[0] == [x]
  {
    var head := sep[..|sep| - 2];
    var s := [x] + head + sep + rest;
    assert sep == head + sep[|sep| - 2..];
    assert s[1..1 + |sep|] == head + sep[..2];
    assert OccursAt(s, sep, 1);
    assert !OccursAt(s, sep, 0) by {
      assert s[0] == x;
    }
    SplitFirstPiece(s, sep);
    assert s[..1] == [x];
  }

  // The analysis dispatch

  /** The prompt sent for a mode; it includes the code (both snippets for a
      comparison), the language and, where the template asks for it, the difficulty. */
  function PromptFor(m: Modes.Mode, code: string, code1: string, code2: string, language: string, difficulty: string): (p: string)
    ensures m == Modes.Compare ==> Contains(p, code1) && Contains(p, code2)
    ensures m != Modes.Compare ==> Contains(p, code)
    ensures Contains(p, language)
    ensures m != Modes.Compare && m != Modes.Bugs ==> Contains(p, difficulty)
  {
    match m
    case Review => Gemini.ReviewPrompt(code, language, difficulty)
    case Explain => Gemini.ExplainPrompt(code, language, difficulty)
    case Bugs => Gemini.BugsPrompt(code, language)
    case LineByLine => Gemini.LineByLinePrompt(code, language, difficulty)
    case Compare => Gemini.ComparePrompt(code1, code2, language)
    case Refactor => Gemini.RefactorPrompt(code, language, difficulty)
  }

  /** The one message each analysis fails with. */
  function FailureMessage(m: Modes.Mode): string
  {
    match m
    case Review => Gemini.API_ERROR_PREFIX + Gemini.EXHAUSTED_MESSAGE
    case Explain => Gemini.EXPLAIN_FAILED_PREFIX + Gemini.EXHAUSTED_MESSAGE
    case Bugs => Gemini.BUGS_FAILED_PREFIX + Gemini.EXHAUSTED_MESSAGE
    case LineByLine => Gemini.LINE_BY_LINE_FAILED_PREFIX + Gemini.EXHAUSTED_MESSAGE
    case Compare => Gemini.COMPARE_FAILED_PREFIX + Gemini.EXHAUSTED_MESSAGE
    case Refactor => Gemini.REFACTOR_FAILED_PREFIX + Gemini.EXHAUSTED_MESSAGE
  }

  /** No analysis fails with the unknown-mode message. */
  lemma FailureIsNotUnknownMode(m: Modes.Mode)
    ensures FailureMessage(m) != UNKNOWN_MODE_MESSAGE
  {
    assert |FailureMessage(m)| >= |Gemini.EXHAUSTED_MESSAGE| > |UNKNOWN_MODE_MESSAGE|;
  }

  /** The `switch` of `handleAnalyze`: a known mode runs its analysis on the
      mode's prompt, an unknown one throws. A result is never blank and a
      failure always carries a non-empty message. */
  function Analysis(mode: string, code: string, code1: string, code2: string, language: string, difficulty: string,
                    b: Gemini.Backend): (r: Result<string, string>)
    ensures r == Err(UNKNOWN_MODE_MESSAGE) <==> mode !in Modes.ALL
    ensures Modes.Parse(mode).Some? ==>
              var p := PromptFor(Modes.Parse(mode).value, code, code1, code2, language, difficulty);
              && (r.Ok? <==> Gemini.Generated(p, b).Ok?)
              && (r.Ok? ==> r == Gemini.Generated(p, b) && !Blank(r.value))
              && (r.Err? ==> r.error == FailureMessage(Modes.Parse(mode).value))
    ensures r.Err? ==> r.error != ""
  {
    match Modes.Parse(mode)
    case None => Err(UNKNOWN_MODE_MESSAGE)
    case Some(m) =>
      FailureIsNotUnknownMode(m);
      match m
      case Review => Gemini.CodeReview(code, language, difficulty, b)
      case Explain => Gemini.ExplainCode(code, language, difficulty, b)
      case Bugs => Gemini.FindBugs(code, language, b)
      case LineByLine => Gemini.LineByLineExplanation(code, language, difficulty, b)
      case Compare => Gemini.CompareCode(code1, code2, language, b)
      case Refactor => Gemini.RefactorCode(code, language, difficulty, b)
  }

  /** The entry `handleAnalyze` hands to the history: the code (both snippets
      joined for a comparison), the settings and the result; the store adds
      the id and the timestamp. */
  function HistoryInput(mode: string, code: string, code1: string, code2: string, language: string,
                        difficulty: string, result: string): (e: Storage.Entry)
    ensures e.id == None && e.timestamp == None
    ensures mode == Modes.COMPARE ==> e.code == Some(JoinSnippets(code1, code2))
    ensures mode != Modes.COMPARE ==> e.code == Some(code)
    ensures e.language == Some(language) && e.mode == Some(mode)
    ensures e.difficulty == Some(difficulty) && e.result == Some(result)
  {
    Storage.Entry(None, None,
                  Some(if mode == Modes.COMPARE then JoinSnippets(code1, code2) else code),
                  Some(language), Some(mode), Some(difficulty), Some(result))
  }

  /** The application's state, over the storage service it shares with the history panel. */
  class App {
    var code: string
    var code1: string
    var code2: string
    var result: string
    var loading: bool
    var selectedMode: string
    var language: string
    var difficulty: string
    var theme: string
    var error: string
    const storage: Storage.StorageService

    /** The initial state: empty editors, a review of intermediate JavaScript, light theme. */
    constructor (storage: Storage.StorageService)
      ensures this.storage == storage
      ensures code == "" && code1 == "" && code2 == "" && result == "" && error == ""
      ensures !loading && selectedMode == Modes.REVIEW && language == DEFAULT_LANGUAGE
      ensures difficulty == DEFAULT_DIFFICULTY && theme == LIGHT
    {
      this.storage := storage;
      code, code1, code2, result, error := "", "", "", "", "";
      loading := false;
      selectedMode := Modes.REVIEW;
      language := DEFAULT_LANGUAGE;
      difficulty := DEFAULT_DIFFICULTY;
      theme := LIGHT;
    }

    /** The mount effect: the stored theme becomes the theme, and a failed
        connection test shows its message as the error. */
    method Mount(b: Gemini.Backend)
      modifies this
      ensures theme == storage.GetTheme()
      ensures Gemini.TestConnection(b).Ok? ==> error == old(error)
      ensures Gemini.TestConnection(b).Err? ==> error == CONNECTION_ERROR_PREFIX + Gemini.TestConnection(b).error
      ensures code == old(code) && code1 == old(code1) && code2 == old(code2) && result == old(result)
      ensures loading == old(loading) && selectedMode == old(selectedMode)
      ensures language == old(language) && difficulty == old(difficulty)
    {
      theme := storage.GetTheme();
      match Gemini.TestConnection(b)
      case Ok(_) =>
      case Err(message) =>
        error := CONNECTION_ERROR_PREFIX + message;
    }

    /** `toggleTheme`: switches the theme and writes it to storage; the shown
        theme changes even when the write fails. */
    method ToggleTheme(w: Storage.Write)
      modifies this, storage
      ensures theme == Toggled(old(theme))
      ensures w.Accepted? ==> storage.GetTheme() == theme
      ensures w.Refused? ==> storage.themeItem == old(storage.themeItem)
      ensures storage.historyItem == old(storage.historyItem)
      ensures code == old(code) && code1 == old(code1) && code2 == old(code2) && result == old(result)
      ensures error == old(error) && loading == old(loading) && selectedMode == old(selectedMode)
      ensures language == old(language) && difficulty == old(difficulty)
    {
      var newTheme := Toggled(theme);
      theme := newTheme;
      var _ := storage.SaveTheme(newTheme, w);
    }

    /** `canAnalyze`: a comparison needs both snippets, every other mode the
        code, and a text counts only when trimming leaves something. */
    function CanAnalyze(): (can: bool)
      reads this
      ensures selectedMode == Modes.COMPARE ==> (can <==> Trim(code1) != [] && Trim(code2) != [])
      ensures selectedMode != Modes.COMPARE ==> (can <==> Trim(code) != [])
    {
      TrimEmptyIffBlank(code);
      TrimEmptyIffBlank(code1);
      TrimEmptyIffBlank(code2);
      if selectedMode == Modes.COMPARE then !Blank(code1) && !Blank(code2) else !Blank(code)
    }

    /** `handleAnalyze`. When `CanAnalyze()` fails it only sets the guard's
        message. Otherwise it runs the analysis; a result is shown and saved to
        the history, a failure is shown as the error, and loading ends. */
    method HandleAnalyze(b: Gemini.Backend, now: string, isoNow: string, w: Storage.Write)
      modifies this, storage
      ensures code == old(code) && code1 == old(code1) && code2 == old(code2)
      ensures selectedMode == old(selectedMode) && language == old(language)
      ensures difficulty == old(difficulty) && theme == old(theme)
      ensures storage.themeItem == old(storage.themeItem)
      ensures !old(CanAnalyze()) ==>
                && error == (if selectedMode == Modes.COMPARE then MISSING_SNIPPETS_MESSAGE else MISSING_CODE_MESSAGE)
                && result == old(result) && loading == old(loading)
                && storage.historyItem == old(storage.historyItem)
      ensures old(CanAnalyze()) ==>
                var outcome := Analysis(old(selectedMode), old(code), old(code1), old(code2), old(language), old(difficulty), b);
                && !loading
                && result == (if outcome.Ok? then outcome.value else "")
                && error == (if outcome.Err? then outcome.error else "")
                && (outcome.Ok? ==>
                      var entry := HistoryInput(old(selectedMode), old(code), old(code1), old(code2), old(language), old(difficulty), outcome.value);
                      storage.historyItem == Storage.AfterSave(old(storage.historyItem), Storage.Stamped(entry, now, isoNow), w))
                && (outcome.Err? ==> storage.historyItem == old(storage.historyItem))
    {
      if Blank(code) && selectedMode != Modes.COMPARE {
        error := MISSING_CODE_MESSAGE;
        return;
      }
      if selectedMode == Modes.COMPARE && (Blank(code1) || Blank(code2)) {
        error := MISSING_SNIPPETS_MESSAGE;
        return;
      }
      var outcome := Analysis(selectedMode, code, code1, code2, language, difficulty, b);
      var entry := HistoryInput(selectedMode, code, code1, code2, language, difficulty, if outcome.Ok? then outcome.value else "");
      Show(outcome, entry, now, isoNow, w);
    }

    /** The part of `handleAnalyze` past its guards, once the analysis has
        given its outcome: a result is shown and saved to the history, a
        failure is shown as the error (a fixed message when it has none), and
        loading ends. */
    method Show(outcome: Result<string, string>, entry: Storage.Entry, now: string, isoNow: string, w: Storage.Write)
      modifies this, storage
      ensures code == old(code) && code1 == old(code1) && code2 == old(code2)
      ensures selectedMode == old(selectedMode) && language == old(language)
      ensures difficulty == old(difficulty) && theme == old(theme)
      ensures storage.themeItem == old(storage.themeItem)
      ensures !loading
      ensures result == (if outcome.Ok? then outcome.value else "")
      ensures error == (if outcome.Ok? then "" else if outcome.error != "" then outcome.error else FALLBACK_ERROR_MESSAGE)
      ensures outcome.Ok? ==>
                storage.historyItem == Storage.AfterSave(old(storage.historyItem), Storage.Stamped(entry, now, isoNow), w)
      ensures outcome.Err? ==> storage.historyItem == old(storage.historyItem)
    {
      loading := true;
      error := "";
      result := "";
      if outcome.Ok? {
        result := outcome.value;
        Record(entry, now, isoNow, w);
      } else {
        error := if outcome.error != "" then outcome.error else FALLBACK_ERROR_MESSAGE;
      }
      loading := false;
    }

    /** Saves an analysis to the history; nothing but the store changes. */
    method Record(entry: Storage.Entry, now: string, isoNow: string, w: Storage.Write)
      modifies storage
      ensures storage.historyItem == Storage.AfterSave(old(storage.historyItem), Storage.Stamped(entry, now, isoNow), w)
      ensures storage.themeItem == old(storage.themeItem)
    {
      var _ := storage.SaveToHistory(entry, now, isoNow, w);
    }

    /** `handleLoadFromHistory(entry)`: a comparison's code goes back into the
        two snippet editors, any other code into the editor; mode, language,
        difficulty (by default intermediate) and result are restored. */
    method HandleLoadFromHistory(entry: Storage.Entry)
      requires entry.code.Some? && entry.mode.Some? && entry.language.Some?
      modifies this
      ensures entry.mode.value == Modes.COMPARE ==>
                && (code1, code2) == SplitSnippets(entry.code.value)
                && code == old(code)
      ensures entry.mode.value != Modes.COMPARE ==>
                code == entry.code.value && code1 == old(code1) && code2 == old(code2)
      ensures selectedMode == entry.mode.value && language == entry.language.value
      ensures difficulty == (if entry.difficulty.Some? && entry.difficulty.value != "" then entry.difficulty.value
                             else DEFAULT_DIFFICULTY)
      ensures result == (if entry.result.Some? then entry.result.value else "")
      ensures theme == old(theme) && error == old(error) && loading == old(loading)
    {
      if entry.mode.value == Modes.COMPARE {
        var snippets := SplitSnippets(entry.code.value);
        code1 := snippets.0;
        code2 := snippets.1;
      } else {
        code := entry.code.value;
      }
      selectedMode := entry.mode.value;
      language := entry.language.value;
      difficulty := if entry.difficulty.Some? && entry.difficulty.value != "" then entry.difficulty.value
                    else DEFAULT_DIFFICULTY;
      result := if entry.result.Some? then entry.result.value else "";
    }

    /** `handleClear`: empties the editors, the result and the error; the settings stay. */
    method HandleClear()
      modifies this
      ensures code == "" && code1 == "" && code2 == "" && result == "" && error == ""
      ensures !CanAnalyze()
      ensures selectedMode == old(selectedMode) && language == old(language)
      ensures difficulty == old(difficulty) && theme == old(theme) && loading == old(loading)
    {
      code, code1, code2, result, error := "", "", "", "", "";
      assert TrimStart("") == [] && Trim("") == [];
    }
  }

  /** Loading back the entry an analysis saved (`HandleAnalyze` stores
      `Stamped(HistoryInput(..))`), whatever the application shows at the
      time, restores the mode, language, result and a non-empty difficulty;
      the code goes back into the editor, or for a comparison into the two
      snippet editors whenever the snippets survive the join. */
  method ReloadRestores(app: App, mode: string, code: string, code1: string, code2: string,
                        language: string, difficulty: string, result: string, now: string, isoNow: string)
    modifies app
    ensures mode != Modes.COMPARE ==> app.code == code
    ensures mode == Modes.COMPARE
            && IndexOf(JoinSnippets(code1, code2), COMPARISON_SEPARATOR) == Some(|code1|)
            && !Contains(code2, COMPARISON_SEPARATOR) ==>
              app.code1 == code1 && app.code2 == code2
    ensures app.selectedMode == mode && app.language == language && app.result == result
    ensures difficulty != "" ==> app.difficulty == difficulty
  {
    var saved := Storage.Stamped(HistoryInput(mode, code, code1, code2, language, difficulty, result), now, isoNow);
    app.HandleLoadFromHistory(saved);
    if mode == Modes.COMPARE && IndexOf(JoinSnippets(code1, code2), COMPARISON_SEPARATOR) == Some(|code1|)
       && !Contains(code2, COMPARISON_SEPARATOR) {
      SnippetsRoundTrip(code1, code2);
    }
  }
}
