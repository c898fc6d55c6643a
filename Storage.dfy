/** The history and theme store of `src/services/storageService.js`.
    The browser's `localStorage` is modelled by the two keys the service uses,
    each a field of `StorageService`; JSON encoding is opaque: a stored list
    stands for the JSON text of that list. */
module Storage {
  import opened Wrappers
  import opened Sequences

  /** How many entries `saveToHistory` keeps. */
  const HISTORY_LIMIT: nat := 50
  /** The theme `getTheme` reports when none is stored. */
  const DEFAULT_THEME := "light"
  /** The rejection message of an import whose top-level value is not an array. */
  const INVALID_FORMAT_MESSAGE := "Invalid history file format"
  /** The rejection message of an import whose file cannot be read. */
  const READ_ERROR_MESSAGE := "Error reading file"

  /** One history record. Records are plain JSON objects that an import does
      not check, so each field may be absent. */
  datatype Entry = Entry(
    id: Option<string>,
    timestamp: Option<string>,
    code: Option<string>,
    language: Option<string>,
    mode: Option<string>,
    difficulty: Option<string>,
    result: Option<string>)

  /** What a `localStorage` key holds, as the service reads it back:
      nothing, a value of the expected kind, a JSON value that is not an array
      (only the history key is parsed, and only a writer other than this
      service can leave such a value there), or something `getItem` or
      `JSON.parse` cannot read. */
  datatype Item<T> = Missing | Stored(value: T) | NonArray | Unreadable

  /** What the theme key holds. It is read back as plain text, never parsed,
      so it has no state for a value of the wrong kind: it holds nothing, a
      text, or something `getItem` cannot read. */
  datatype ThemeItem = NoTheme | ThemeText(text: string) | ThemeUnreadable

  /** The outcome of a `setItem`/`removeItem` call: it either takes effect or throws. */
  datatype Write = Accepted | Refused(message: string)

  /** The content of a file chosen for import, as `FileReader` and `JSON.parse` see it. */
  datatype ImportedFile =
    | ReadFailed
    | Unparseable(message: string)
    | NotAnArray
    | AnArray(entries: seq<Entry>)

  function Min(a: nat, b: nat): nat
  {
    if a < b then a else b
  }

  /** `{ id, timestamp, ...entry }`: the record `saveToHistory` stores. Fields
      of the input override the generated id and timestamp. */
  function Stamped(input: Entry, now: string, isoNow: string): (e: Entry)
    ensures e.id == (if input.id.Some? then input.id else Some(now))
    ensures e.timestamp == (if input.timestamp.Some? then input.timestamp else Some(isoNow))
    ensures e.(id := input.id, timestamp := input.timestamp) == input
  {
    input.(id := if input.id.Some? then input.id else Some(now),
           timestamp := if input.timestamp.Some? then input.timestamp else Some(isoNow))
  }

  /** The list after inserting `e` into `h`: `e` first, then the older entries in
      order, cut to the history limit. */
  function Inserted(h: seq<Entry>, e: Entry): (r: seq<Entry>)
    ensures |r| == Min(|h| + 1, HISTORY_LIMIT)
    ensures r[0] == e
    ensures forall i :: 1 <= i < |r| ==> r[i] == h[i - 1]
  {
    ([e] + h)[..Min(|h| + 1, HISTORY_LIMIT)]
  }

  /** An insertion never leaves more than the limit, and over an oversized list
      (one brought in by an import) it leaves exactly the limit. */
  lemma InsertedTrims(h: seq<Entry>, e: Entry)
    ensures |Inserted(h, e)| <= HISTORY_LIMIT
    ensures |h| >= HISTORY_LIMIT ==>
              |Inserted(h, e)| == HISTORY_LIMIT && Inserted(h, e)[1..] == h[..HISTORY_LIMIT - 1]
  {
  }

  /** The list after inserting each of `es`, first to last, into `h`. */
  function InsertedAll(h: seq<Entry>, es: seq<Entry>): seq<Entry>
  {
    if es == [] then h else Inserted(InsertedAll(h, es[..|es| - 1]), es[|es| - 1])
  }

  /** After a run of insertions the newest entry comes first, the inserted
      entries follow newest-first, then the older list, and only the most
      recent `HISTORY_LIMIT` of them are kept. */
  lemma {:induction false} InsertedAllNewestFirst(h: seq<Entry>, es: seq<Entry>)
    ensures |InsertedAll(h, es)| == (if es == [] then |h| else Min(|es| + |h|, HISTORY_LIMIT))
    ensures forall i :: 0 <= i < |InsertedAll(h, es)| ==>
      InsertedAll(h, es)[i] == if i < |es| then es[|es| - 1 - i] else h[i - |es|]
  {
    if es != [] {
      var init := es[..|es| - 1];
      InsertedAllNewestFirst(h, init);
      var before := InsertedAll(h, init);
      var r := InsertedAll(h, es);
      assert r == Inserted(before, es[|es| - 1]);
      forall i | 0 <= i < |r|
        ensures r[i] == if i < |es| then es[|es| - 1 - i] else h[i - |es|]
      {
        if i > 0 {
          assert r[i] == before[i - 1];
          if i - 1 < |init| {
            assert init[|init| - 1 - (i - 1)] == es[|es| - 1 - i];
          }
        }
      }
    }
  }

  /** Fifty-one insertions into an empty history keep the last fifty,
      newest first: the first one inserted is gone. */
  lemma FiftyOneInsertions(es: seq<Entry>)
    requires |es| == HISTORY_LIMIT + 1
    ensures |InsertedAll([], es)| == HISTORY_LIMIT
    ensures InsertedAll([], es)[0] == es[HISTORY_LIMIT]
    ensures forall i :: 0 <= i < HISTORY_LIMIT ==> InsertedAll([], es)[i] == es[HISTORY_LIMIT - i]
  {
    InsertedAllNewestFirst([], es);
  }

  /** The entry's id differs from the given one. The id passed in may itself
      be undefined (an entry without an id), in which case exactly the entries
      that have an id differ from it. */
  predicate OtherId(id: Option<string>, e: Entry)
  {
    e.id != id
  }

  /** `history.filter(entry => entry.id !== id)`. */
  function WithoutId(h: seq<Entry>, id: Option<string>): (r: seq<Entry>)
    ensures forall e :: e in r <==> e in h && e.id != id
  {
    Filter(h, e => OtherId(id, e))
  }

  /** Deleting by id removes exactly the entries with that id, keeps the rest in
      order, and changes nothing when no entry has it. */
  lemma WithoutIdExact(h: seq<Entry>, id: Option<string>)
    ensures IsSubsequence(WithoutId(h, id), h)
    ensures forall e :: multiset(WithoutId(h, id))[e] == if e.id != id then multiset(h)[e] else 0
    ensures (forall i :: 0 <= i < |h| ==> h[i].id != id) ==> WithoutId(h, id) == h
  {
    FilterIsSubsequence(h, e => OtherId(id, e));
    forall e ensures multiset(WithoutId(h, id))[e] == if e.id != id then multiset(h)[e] else 0 {
      FilterCounts(h, e => OtherId(id, e), e);
    }
    if forall i :: 0 <= i < |h| ==> h[i].id != id {
      FilterKeepsAll(h, e => OtherId(id, e));
    }
  }

  /** The entry has an id. */
  predicate Identified(e: Entry)
  {
    e.id.Some?
  }

  /** Deleting with an undefined id (the delete button of an entry that has no
      id passes `entry.id`, which is `undefined`) does not delete that entry:
      it keeps, in order, exactly the entries that do have an id. */
  lemma {:induction false} DeleteUndefinedKeepsIdentified(h: seq<Entry>)
    ensures WithoutId(h, None) == Filter(h, Identified)
  {
    FilterCongruent(h, e => OtherId(None, e), Identified);
  }

  /** `history.find(entry => entry.id === id)`: an entry with the id, if there is one. */
  function FindById(h: seq<Entry>, id: string): (r: Option<Entry>)
    ensures r.None? <==> forall i :: 0 <= i < |h| ==> h[i].id != Some(id)
    ensures r.Some? ==> r.value in h && r.value.id == Some(id)
  {
    if h == [] then None
    else if h[0].id == Some(id) then Some(h[0])
    else FindById(h[1..], id)
  }

  /** The entry found is the first one with the id. */
  lemma {:induction false} FindByIdFirst(h: seq<Entry>, id: string, k: nat)
    requires k < |h| && h[k].id == Some(id)
    requires forall j :: 0 <= j < k ==> h[j].id != Some(id)
    ensures FindById(h, id) == Some(h[k])
  {
    if k > 0 {
      FindByIdFirst(h[1..], id, k - 1);
    }
  }

  /** Once the entries with an id are deleted, looking the id up finds nothing. */
  lemma {:induction false} FindAfterDelete(h: seq<Entry>, id: string)
    ensures FindById(WithoutId(h, Some(id)), id) == None
  {
    var r := WithoutId(h, Some(id));
    forall i | 0 <= i < |r| ensures r[i].id != Some(id) {
      assert r[i] in r;
    }
  }

  /** The list `getHistory` reads from what the history key holds. */
  function HistoryOf(item: Item<seq<Entry>>): (h: seq<Entry>)
    ensures item.Stored? ==> h == item.value
    ensures !item.Stored? ==> h == []
  {
    if item.Stored? then item.value else []
  }

  /** What the history key holds after `saveToHistory` stores `e`: the list
      with `e` inserted; unchanged when the stored value is not an array or
      the write throws. */
  function AfterSave(item: Item<seq<Entry>>, e: Entry, w: Write): (r: Item<seq<Entry>>)
    ensures w.Accepted? && !item.NonArray? ==>
              r.Stored? && r.value == Inserted(HistoryOf(item), e)
              && r.value[0] == e && |r.value| <= HISTORY_LIMIT
    ensures w.Refused? || item.NonArray? ==> r == item
  {
    if w.Refused? || item.NonArray? then item else Stored(Inserted(HistoryOf(item), e))
  }

  /** The service over the two `localStorage` keys it uses:
      `code_guruji_history` and `code_guruji_theme`. */
  class StorageService {
    var historyItem: Item<seq<Entry>>
    var themeItem: ThemeItem

    /** The service over whatever the browser already holds under the two keys. */
    constructor (history: Item<seq<Entry>>, theme: ThemeItem)
      ensures historyItem == history && themeItem == theme
    {
      historyItem := history;
      themeItem := theme;
    }

    /** `getHistory()`: the stored list, or `[]` when the key is absent or
        unreadable. A stored non-array also reads as `[]` here. */
    function GetHistory(): (h: seq<Entry>)
      reads this
      ensures historyItem.Stored? ==> h == historyItem.value
      ensures !historyItem.Stored? ==> h == []
    {
      HistoryOf(historyItem)
    }

    /** The stored history holds no more entries than the limit. */
    ghost predicate Capped()
      reads this
    {
      |GetHistory()| <= HISTORY_LIMIT
    }

    /** `getHistoryEntry(id)`: the first stored entry with the id, if any. */
    function GetHistoryEntry(id: string): (r: Option<Entry>)
      reads this
      ensures r.Some? ==> r.value in GetHistory() && r.value.id == Some(id)
      ensures r.None? <==> forall e :: e in GetHistory() ==> e.id != Some(id)
    {
      FindById(GetHistory(), id)
    }

    /** `saveToHistory(entry)`: puts the stamped entry in front of the stored
        list, keeps the first `HISTORY_LIMIT`, writes the list back and returns
        the entry's id. When the stored value is not an array (`unshift` throws)
        or the write throws, it returns `null` and nothing changes. */
    method SaveToHistory(input: Entry, now: string, isoNow: string, w: Write) returns (id: Option<string>)
      modifies this
      ensures themeItem == old(themeItem)
      ensures historyItem == AfterSave(old(historyItem), Stamped(input, now, isoNow), w)
      ensures w.Accepted? && !old(historyItem).NonArray? ==> id == Stamped(input, now, isoNow).id && Capped()
      ensures w.Refused? || old(historyItem).NonArray? ==> id == None
    {
      if historyItem.NonArray? {
        return None;
      }
      var history := GetHistory();
      var newEntry := Stamped(input, now, isoNow);
      history := [newEntry] + history;
      var trimmed := history[..Min(|history|, HISTORY_LIMIT)];
      if w.Refused? {
        return None;
      }
      historyItem := Stored(trimmed);
      id := newEntry.id;
    }

    /** `deleteHistoryEntry(id)`: writes back the list without the entries that
        carry the id and reports success, also when none did; `false`, with
        nothing changed, when the stored value is not an array (`filter` throws)
        or the write throws. */
    method DeleteHistoryEntry(id: Option<string>, w: Write) returns (ok: bool)
      modifies this
      ensures themeItem == old(themeItem)
      ensures ok <==> w.Accepted? && !old(historyItem).NonArray?
      ensures ok ==> historyItem == Stored(WithoutId(old(GetHistory()), id))
      ensures !ok ==> historyItem == old(historyItem)
      ensures ok ==> forall e :: e in GetHistory() ==> e.id != id
      ensures ok && id.Some? ==> GetHistoryEntry(id.value) == None
      ensures ok && old(Capped()) ==> Capped()
    {
      if historyItem.NonArray? {
        return false;
      }
      var history := GetHistory();
      var updated := WithoutId(history, id);
      if w.Refused? {
        return false;
      }
      historyItem := Stored(updated);
      if id.Some? {
        FindAfterDelete(history, id.value);
      }
      ok := true;
    }

    /** `clearHistory()`: removes the history key; afterwards the history reads as empty. */
    method ClearHistory(w: Write) returns (ok: bool)
      modifies this
      ensures themeItem == old(themeItem)
      ensures ok <==> w.Accepted?
      ensures w.Accepted? ==> historyItem == Missing && GetHistory() == []
      ensures w.Refused? ==> historyItem == old(historyItem)
    {
      if w.Refused? {
        return false;
      }
      historyItem := Missing;
      ok := true;
    }

    /** `saveTheme(theme)`: stores the theme; `false` when the write throws. */
    method SaveTheme(theme: string, w: Write) returns (ok: bool)
      modifies this
      ensures historyItem == old(historyItem)
      ensures ok <==> w.Accepted?
      ensures w.Accepted? ==> themeItem == ThemeText(theme)
      ensures w.Refused? ==> themeItem == old(themeItem)
    {
      if w.Refused? {
        return false;
      }
      themeItem := ThemeText(theme);
      ok := true;
    }

    /** `getTheme()`: the stored theme, or `'light'` when it is unset, empty or unreadable. */
    function GetTheme(): (theme: string)
      reads this
      ensures theme != ""
      ensures themeItem.ThemeText? && themeItem.text != "" ==> theme == themeItem.text
      ensures !(themeItem.ThemeText? && themeItem.text != "") ==> theme == DEFAULT_THEME
    {
      if themeItem.ThemeText? && themeItem.text != "" then themeItem.text else DEFAULT_THEME
    }

    /** `importHistory(file)`: an array replaces the stored list as it is (no cap,
        no shape check) and the import resolves with its length; anything else
        rejects and leaves the store as it was. */
    method ImportHistory(file: ImportedFile, w: Write) returns (r: Result<nat, string>)
      modifies this
      ensures themeItem == old(themeItem)
      ensures r.Ok? <==> file.AnArray? && w.Accepted?
      ensures r.Ok? ==> historyItem == Stored(file.entries) && r.value == |file.entries|
      ensures r.Err? ==> historyItem == old(historyItem)
      ensures file.NotAnArray? ==> r == Err(INVALID_FORMAT_MESSAGE)
      ensures file.ReadFailed? ==> r == Err(READ_ERROR_MESSAGE)
      ensures file.Unparseable? ==> r == Err(file.message)
      ensures file.AnArray? && w.Refused? ==> r == Err(w.message)
    {
      match file
      case ReadFailed =>
        r := Err(READ_ERROR_MESSAGE);
      case Unparseable(message) =>
        r := Err(message);
      case NotAnArray =>
        r := Err(INVALID_FORMAT_MESSAGE);
      case AnArray(entries) =>
        if w.Refused? {
          r := Err(w.message);
        } else {
          historyItem := Stored(entries);
          r := Ok(|entries|);
        }
    }
  }

  /** A theme written successfully is the theme read back, unless it is the
      empty string, which reads back as `'light'`. */
  method SaveThenGetTheme(s: StorageService, theme: string)
    modifies s
    ensures s.GetTheme() == if theme == "" then DEFAULT_THEME else theme
  {
    var ok := s.SaveTheme(theme, Accepted);
  }

  /** After a successful clear, the history reads as empty and no entry is found. */
  method ClearThenGet(s: StorageService, id: string)
    modifies s
    ensures s.GetHistory() == [] && s.GetHistoryEntry(id) == None
  {
    var ok := s.ClearHistory(Accepted);
  }
}
