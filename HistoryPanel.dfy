/** The history panel: the list it shows, the case-insensitive search over
    it, the preview and mode badge of each entry, and its delete, clear and
    import actions on the shared storage service. */
module HistoryPanel {
  import opened Wrappers
  import opened JsStrings
  import opened Sequences
  import Storage
  import Modes

  /** The number of characters of code an entry's preview shows. */
  const PREVIEW_LENGTH: nat := 200
  const ELLIPSIS := "..."

  const IMPORTED_PREFIX := "Successfully imported "
  const IMPORTED_SUFFIX := " history entries"
  const IMPORT_ERROR_PREFIX := "Error importing history: "

  // Search

  /** `field?.toLowerCase().includes(term.toLowerCase())`: a missing field never matches. */
  predicate FieldMatches(field: Option<string>, term: string)
  {
    field.Some? && Contains(Lower(field.value), Lower(term))
  }

  /** An entry matches when its code, its mode or its language does. */
  predicate Matches(term: string, e: Storage.Entry)
  {
    FieldMatches(e.code, term) || FieldMatches(e.mode, term) || FieldMatches(e.language, term)
  }

  /** `filteredHistory`: the entries that match the search term, in order. */
  function FilteredHistory(history: seq<Storage.Entry>, term: string): (r: seq<Storage.Entry>)
    ensures |r| <= |history|
    ensures forall e :: e in r <==> e in history && Matches(term, e)
  {
    Filter(history, e => Matches(term, e))
  }

  /** The search keeps the order of the list and drops no copy of a matching entry. */
  lemma FilteredExactly(history: seq<Storage.Entry>, term: string, e: Storage.Entry)
    ensures IsSubsequence(FilteredHistory(history, term), history)
    ensures multiset(FilteredHistory(history, term))[e]
            == if Matches(term, e) then multiset(history)[e] else 0
  {
    FilterIsSubsequence(history, e => Matches(term, e));
    FilterCounts(history, e => Matches(term, e), e);
  }

  /** The search ignores letter case in the term: terms that lower-case alike
      select the same entries. */
  lemma SearchIgnoresCase(history: seq<Storage.Entry>, term1: string, term2: string)
    requires Lower(term1) == Lower(term2)
    ensures FilteredHistory(history, term1) == FilteredHistory(history, term2)
  {
    FilterCongruent(history, e => Matches(term1, e), e => Matches(term2, e));
  }

  /** An entry whose code contains `Foo` is found by the term `fOO`. */
  lemma SearchFindsOtherCase(e: Storage.Entry)
    requires e.code == Some("Foo")
    ensures FilteredHistory([e], "fOO") == [e]
  {
    assert Lower("Foo") == "foo";
    assert Lower("fOO") == "foo";
    assert OccursAt(Lower("Foo"), Lower("fOO"), 0);
  }

  /** The entry has one of the fields the search looks at. */
  predicate HasSearchedField(e: Storage.Entry)
  {
    e.code.Some? || e.mode.Some? || e.language.Some?
  }

  /** An empty search keeps exactly the entries that have a code, a mode or a
      language, in their order. */
  lemma EmptySearchKeepsEntries(history: seq<Storage.Entry>)
    ensures FilteredHistory(history, "")
            == Filter(history, HasSearchedField)
  {
    forall i | 0 <= i < |history|
      ensures Matches("", history[i]) == HasSearchedField(history[i])
    {
      var e := history[i];
      if e.code.Some? { ContainsEmpty(Lower(e.code.value)); }
      if e.mode.Some? { ContainsEmpty(Lower(e.mode.value)); }
      if e.language.Some? { ContainsEmpty(Lower(e.language.value)); }
    }
    FilterCongruent(history, e => Matches("", e), HasSearchedField);
  }

  // Presentation

  /** The code shown for an entry: its first 200 characters, followed by `...`
      when there are more. */
  function Preview(code: string): (p: string)
    ensures |code| <= PREVIEW_LENGTH ==> p == code
    ensures |code| > PREVIEW_LENGTH ==>
              |p| == PREVIEW_LENGTH + |ELLIPSIS| && p[..PREVIEW_LENGTH] == code[..PREVIEW_LENGTH]
              && p[PREVIEW_LENGTH..] == ELLIPSIS
  {
    var shown := if |code| <= PREVIEW_LENGTH then code else code[..PREVIEW_LENGTH];
    shown + (if |code| > PREVIEW_LENGTH then ELLIPSIS else "")
  }

  const REVIEW_COLORS := "bg-blue-100 text-blue-800 " + "dark:bg-blue-900 dark:text-blue-200"
  const EXPLAIN_COLORS := "bg-green-100 text-green-800 " + "dark:bg-green-900 dark:text-green-200"
  const BUGS_COLORS := "bg-red-100 text-red-800 " + "dark:bg-red-900 dark:text-red-200"
  const LINE_BY_LINE_COLORS := "bg-purple-100 text-purple-800 " + "dark:bg-purple-900 dark:text-purple-200"
  const COMPARE_COLORS := "bg-orange-100 text-orange-800 " + "dark:bg-orange-900 dark:text-orange-200"
  const REFACTOR_COLORS := "bg-indigo-100 text-indigo-800 " + "dark:bg-indigo-900 dark:text-indigo-200"
  const OTHER_COLORS := "bg-gray-100 text-gray-800 " + "dark:bg-gray-900 dark:text-gray-200"

  /** The colour classes of a mode. */
  function Colors(m: Modes.Mode): string
  {
    match m
    case Review => REVIEW_COLORS
    case Explain => EXPLAIN_COLORS
    case Bugs => BUGS_COLORS
    case LineByLine => LINE_BY_LINE_COLORS
    case Compare => COMPARE_COLORS
    case Refactor => REFACTOR_COLORS
  }

  /** `getModeColor(mode)`: the colour classes of a known mode, grey for anything else. */
  function ModeColor(mode: string): (c: string)
    ensures Modes.Parse(mode).Some? ==> c == Colors(Modes.Parse(mode).value)
    ensures mode !in Modes.ALL ==> c == OTHER_COLORS
  {
    match Modes.Parse(mode)
    case Some(m) => Colors(m)
    case None => OTHER_COLORS
  }

  /** The letter that tells the colour classes apart: the one after `bg-`,
      or after `bg-g` for green and grey. */
  function ColorKey(c: string): char
    requires |c| > 5
  {
    if c[3] == 'g' then c[5] else c[3]
  }

  /** Each mode has a badge of its own, and none is the grey one. */
  lemma ModeColorsDistinct(m1: Modes.Mode, m2: Modes.Mode)
    ensures m1 != m2 ==> ModeColor(Modes.Id(m1)) != ModeColor(Modes.Id(m2))
    ensures ModeColor(Modes.Id(m1)) != OTHER_COLORS
  {
    Modes.ParseId(m1);
    Modes.ParseId(m2);
    assert ColorKey(REVIEW_COLORS) == 'b' && ColorKey(EXPLAIN_COLORS) == 'e';
    assert ColorKey(BUGS_COLORS) == 'r' && ColorKey(LINE_BY_LINE_COLORS) == 'p';
    assert ColorKey(COMPARE_COLORS) == 'o' && ColorKey(REFACTOR_COLORS) == 'i';
    assert ColorKey(OTHER_COLORS) == 'a';
  }

  /** The alert after a successful import. */
  function ImportedMessage(count: nat): (m: string)
    ensures Contains(m, NatToString(count))
  {
    ContainsPiece(IMPORTED_PREFIX, NatToString(count), IMPORTED_SUFFIX);
    IMPORTED_PREFIX + NatToString(count) + IMPORTED_SUFFIX
  }

  /** The panel's state: the list it last loaded and the search term. */
  class Panel {
    var history: seq<Storage.Entry>
    var searchTerm: string
    const storage: Storage.StorageService

    constructor (storage: Storage.StorageService)
      ensures this.storage == storage && history == [] && searchTerm == ""
    {
      this.storage := storage;
      history := [];
      searchTerm := "";
    }

    /** The entries on show. */
    function Shown(): (r: seq<Storage.Entry>)
      reads this
      ensures forall e :: e in r <==> e in history && Matches(searchTerm, e)
    {
      FilteredHistory(history, searchTerm)
    }

    /** `loadHistory`: the panel shows what the store holds. */
    method LoadHistory()
      modifies this
      ensures history == storage.GetHistory() && searchTerm == old(searchTerm)
    {
      history := storage.GetHistory();
    }

    /** Typing in the search box. */
    method Search(term: string)
      modifies this
      ensures searchTerm == term && history == old(history)
    {
      searchTerm := term;
    }

    /** `handleDelete(id)`: once confirmed, deletes the entry from the store and
        reloads; the reloaded list no longer holds the id when the write went
        through. The id is the entry's own, so it is undefined for an entry
        without one, and then every entry that has an id is kept. */
    method HandleDelete(id: Option<string>, confirmed: bool, w: Storage.Write)
      modifies this, storage
      ensures searchTerm == old(searchTerm) && storage.themeItem == old(storage.themeItem)
      ensures !confirmed ==> history == old(history) && storage.historyItem == old(storage.historyItem)
      ensures confirmed ==> history == storage.GetHistory()
      ensures confirmed && w.Accepted? && !old(storage.historyItem).NonArray? ==>
                && storage.historyItem == Storage.Stored(history)
                && history == Storage.WithoutId(old(storage.GetHistory()), id)
                && forall e :: e in history ==> e.id != id
      ensures confirmed && (w.Refused? || old(storage.historyItem).NonArray?) ==>
                storage.historyItem == old(storage.historyItem)
    {
      if confirmed {
        var _ := storage.DeleteHistoryEntry(id, w);
        LoadHistory();
      }
    }

    /** `handleClearAll`: once confirmed, clears the store and empties the list
        on show; the list is emptied even when the store could not be cleared. */
    method HandleClearAll(confirmed: bool, w: Storage.Write)
      modifies this, storage
      ensures searchTerm == old(searchTerm) && storage.themeItem == old(storage.themeItem)
      ensures !confirmed ==> history == old(history) && storage.historyItem == old(storage.historyItem)
      ensures confirmed ==> history == []
      ensures confirmed && w.Accepted? ==> storage.historyItem == Storage.Missing && storage.GetHistory() == []
      ensures confirmed && w.Refused? ==> storage.historyItem == old(storage.historyItem)
    {
      if confirmed {
        var _ := storage.ClearHistory(w);
        history := [];
      }
    }

    /** `handleImport(event)`: with no file chosen nothing happens; otherwise the
        import's outcome is announced, and a successful import is loaded. */
    method HandleImport(file: Option<Storage.ImportedFile>, w: Storage.Write) returns (alert: Option<string>)
      modifies this, storage
      ensures searchTerm == old(searchTerm) && storage.themeItem == old(storage.themeItem)
      ensures file.None? ==> alert.None? && history == old(history) && storage.historyItem == old(storage.historyItem)
      ensures file.Some? && file.value.AnArray? && w.Accepted? ==>
                && storage.historyItem == Storage.Stored(file.value.entries)
                && history == file.value.entries
                && alert == Some(ImportedMessage(|file.value.entries|))
      ensures file.Some? && !(file.value.AnArray? && w.Accepted?) ==>
                && history == old(history) && storage.historyItem == old(storage.historyItem)
                && alert.Some? && |alert.value| >= |IMPORT_ERROR_PREFIX|
                && alert.value[..|IMPORT_ERROR_PREFIX|] == IMPORT_ERROR_PREFIX
      ensures file == Some(Storage.NotAnArray) ==> alert == Some(IMPORT_ERROR_PREFIX + Storage.INVALID_FORMAT_MESSAGE)
      ensures file == Some(Storage.ReadFailed) ==> alert == Some(IMPORT_ERROR_PREFIX + Storage.READ_ERROR_MESSAGE)
      ensures file.Some? && file.value.Unparseable? ==> alert == Some(IMPORT_ERROR_PREFIX + file.value.message)
      ensures file.Some? && file.value.AnArray? && w.Refused? ==> alert == Some(IMPORT_ERROR_PREFIX + w.message)
    {
      if file.None? {
        return None;
      }
      var r := storage.ImportHistory(file.value, w);
      match r {
        case Ok(count) =>
          alert := Some(ImportedMessage(count));
          LoadHistory();
        case Err(message) =>
          alert := Some(IMPORT_ERROR_PREFIX + message);
      }
    }
  }
}
