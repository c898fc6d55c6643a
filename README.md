# code-guruji in Dafny

This project models the logic of code-guruji, a browser front end. The app sends a code
snippet to Google's Gemini text-generation API in one of six analysis modes: review, explain,
bugs, line-by-line, compare and refactor. It shows the answer and keeps a history of past
analyses in `localStorage`. The model covers four parts:

- **The history and theme store** (`Storage`, after `src/services/storageService.js`).
  - `localStorage` is modelled as two fields of the class `StorageService`:
    - the history key, which may be missing, hold a list of entries, hold a JSON value
      that is not an array, or be unreadable;
    - the theme key, which is read as plain text and never parsed: it may be missing,
      hold a text, or be unreadable.
  - Every write takes a `Write` parameter. It says whether `setItem`/`removeItem` went
    through or threw, and with what message.
  - Insertion puts the new entry first and cuts the list to 50 entries.
  - Deletion by id filters the list. Lookup by id finds the first match.
  - Import replaces the whole list, but only when the file parses to an array.
  - The theme defaults to `'light'`.
- **The generation client** (`Gemini`, after `src/services/geminiService.js`).
  - The SDK call and each direct HTTP call are fields of a `Backend` value: functions from
    the prompt, or from the model and the prompt, to the reply they would give.
  - `GenerateContent` is the `for` loop over the three fallback models. It is proved equal
    to the function `Generated`.
  - The model also covers response validation, the six prompt templates, the ordered
    substring classification of `codeReview` errors, and the prefixes the other five
    analyses put on their errors.
- **The application component** (`Application`, after `src/App.js`).
  - The component's state is the class `App`, over a shared `StorageService`.
  - It covers the input guards, the mode dispatch, and the entry saved after a successful
    analysis.
  - It also covers how a comparison's two snippets are joined and split back, restoring an
    entry with its defaults, the theme toggle, `canAnalyze` and clearing.
- **The history panel** (`HistoryPanel`, after `src/components/History.js`).
  - It covers the case-insensitive search filter, the 200-character preview and the mode
    badge colours.
  - The class `Panel` holds the confirm-guarded delete and clear-all, the import handler and
    the reload from storage.

Support modules:
- `Wrappers`: `Option` and `Result`.
- `Sequences`: an order-preserving `Filter`.
- `JsStrings`: the JavaScript string operations the code relies on. These are `trim`,
  `includes`, `toLowerCase`, `indexOf`, `split`/`join` with a string separator, and the
  decimal rendering of a count in a template literal.
- `Modes`: the six mode ids and their datatype.

### What the code does and does not guarantee

- Entry ids are `Date.now()` strings, and an import stores any array as it is. Nothing
  makes ids unique, and no lemma claims they are.
- When the SDK and every fallback model fail, `generateContent` throws one fixed message.
  It does not wrap the underlying failures.
- Errors are plain messages. `codeReview` tests them for `API_KEY`, `quota`/`limit` and
  `network`/`fetch`. Since `generateContent` only ever throws the fixed exhaustion message,
  a failed review always ends in the `API Error: ` branch (`Gemini.CodeReview`).
- The theme is any string. `getTheme` returns any non-empty stored string, and toggling
  maps everything other than `'light'` to `'light'`.
- `saveToHistory` and `deleteHistoryEntry` fail without writing when the history key holds
  a JSON value that is not an array.

## Model

| member | source | states |
|---|---|---|
| Sequences.Filter | src/services/storageService.js:48 | `Array.prototype.filter`: the result is no longer than the input and holds exactly the input's elements that satisfy the predicate |
| Sequences.FilterIsSubsequence | src/components/History.js:52 | the filtered list is an order-preserving subsequence of the input |
| Sequences.FilterCounts | src/components/History.js:52 | filtering keeps every copy of a kept element and no copy of a dropped one |
| Sequences.FilterKeepsAll | src/components/History.js:52 | when every element passes, filtering returns the input unchanged |
| Sequences.FilterCongruent | src/components/History.js:52 | two predicates that agree on the elements give the same filtered list |
| JsStrings.TrimStart | src/App.js:79 | the result is a suffix of the input; everything removed is white space; the result does not start with white space |
| JsStrings.TrimEnd | src/App.js:79 | the result is a prefix of the input; everything removed is white space; the result does not end with white space |
| JsStrings.Trim | src/App.js:79 | `String.prototype.trim`: no longer than the input, neither starts nor ends with white space |
| JsStrings.TrimSurrounded | src/App.js:79 | what trim keeps is a contiguous slice of the input, and every character cut away before or after it is white space |
| JsStrings.BlankIffEverySpace | src/App.js:164-166 | a string is blank exactly when every character is ECMAScript white space or a line terminator |
| JsStrings.TrimEmptyIffBlank | src/App.js:79-87 | `!s.trim()` holds exactly for blank strings, in both directions |
| JsStrings.ContainsPiece | src/services/geminiService.js:172-174 | a concatenation includes each of its pieces |
| JsStrings.ContainsTransitive | src/services/geminiService.js:172-174 | text included in a part is included in the whole |
| JsStrings.Lower | src/components/History.js:53-55 | `toLowerCase` on ASCII: same length, each upper-case letter becomes its lower-case counterpart, every other character unchanged |
| JsStrings.LowerIdempotent | src/components/History.js:53-55 | lower-casing twice equals lower-casing once |
| JsStrings.IndexOf | src/App.js:142 | `indexOf`: the first occurrence, with `None` exactly when the separator does not occur |
| JsStrings.Split | src/App.js:142 | `split` with a string separator always yields at least one piece |
| JsStrings.SplitJoin | src/App.js:142 | joining the pieces of a split with the separator gives the original string back |
| JsStrings.SplitPiecesFree | src/App.js:142 | no piece of a split contains the separator |
| JsStrings.SplitFirstPiece | src/App.js:142 | the first piece is the text before the first occurrence of the separator: it is followed by the separator and holds no earlier start of one; there are two or more pieces exactly when the separator occurs |
| JsStrings.SplitPieces | src/App.js:142 | the first two pieces of a split occur in the string, and a string without the separator is its own only piece |
| JsStrings.NatToString | src/components/History.js:43 | `${count}`: decimal digits without a leading zero whose value is the count |
| Modes.Id | src/App.js:96-117 | every mode's id is one of the six ids the dispatch knows |
| Modes.Parse | src/App.js:96-117 | an id is parsed to a mode exactly when it is one of the six ids, and the mode's id is that id |
| Modes.ParseId | src/App.js:96-117 | the six ids are pairwise distinct: each mode is parsed back from its own id |
| Storage.Stamped | src/services/storageService.js:11-15 | the stored record's id and timestamp are the input's when it has them, else the generated ones; every other field is the input's |
| Storage.Inserted | src/services/storageService.js:17-20 | the new entry is at index 0 and the previous entries follow in their order; the length is min(old length + 1, 50) |
| Storage.InsertedTrims | src/services/storageService.js:20 | an insert never leaves more than 50; over an oversized imported list it leaves exactly 50, dropping the tail |
| Storage.InsertedAllNewestFirst | src/services/storageService.js:8-28 | after a run of inserts, the list is newest first, then the older list, with only the most recent 50 kept |
| Storage.FiftyOneInsertions | src/services/storageService.js:19-20 | 51 inserts into an empty store keep exactly 50, newest first, and the first one inserted is gone |
| Storage.WithoutId | src/services/storageService.js:48 | the remaining entries are exactly those whose id differs from the given one; the given id may itself be undefined |
| Storage.WithoutIdExact | src/services/storageService.js:45-50 | deletion keeps the order and every copy of other entries, removes every entry with the id, and changes nothing when none has it |
| Storage.FindById | src/services/storageService.js:40-43 | `find` yields nothing exactly when no entry has the id; what it yields is in the list and has the id |
| Storage.FindByIdFirst | src/services/storageService.js:42 | the entry found is the first one with the id |
| Storage.DeleteUndefinedKeepsIdentified | src/services/storageService.js:48 | deleting with an undefined id (what the delete button of an entry without an id passes, History.js:187) removes the entries without an id and keeps, in order, exactly those that have one |
| Storage.FindAfterDelete | src/services/storageService.js:40-50 | after deleting an id, looking it up finds nothing |
| Storage.AfterSave | src/services/storageService.js:8-28 | after an accepted write over a stored list, or over an absent or unreadable key, the key holds that list with the entry inserted: the entry first, at most 50; over a non-array or after a refused write, the key is unchanged |
| Storage.StorageService.constructor | src/services/storageService.js:1-5 | the service starts over whatever the two keys already hold |
| Storage.StorageService.GetHistory | src/services/storageService.js:30-38 | the stored list, or `[]` when the key is absent, unreadable or not an array |
| Storage.StorageService.GetHistoryEntry | src/services/storageService.js:40-43 | an entry with the id that is in the stored history, or none exactly when no stored entry has it |
| Storage.StorageService.SaveToHistory | src/services/storageService.js:8-28 | the history key becomes `AfterSave(old key, Stamped(entry), write)`; the result is the stamped id when it was written, with the store within 50, and `null` when the stored value is not an array or the write fails |
| Storage.StorageService.DeleteHistoryEntry | src/services/storageService.js:45-55 | `true` exactly when the stored value is not a non-array JSON value (a list, absent, or unreadable and so read as empty) and the write succeeds, even when no entry had the id; then no stored entry has the id, a defined id is no longer found, and the cap still holds; on `false` nothing changes |
| Storage.StorageService.ClearHistory | src/services/storageService.js:57-65 | a successful clear removes the key and the history then reads as `[]`; a failed one changes nothing |
| Storage.StorageService.SaveTheme | src/services/storageService.js:68-76 | a successful write stores the theme; a failed one changes nothing; the history is untouched |
| Storage.StorageService.GetTheme | src/services/storageService.js:78-85 | the stored theme when it is a non-empty string, otherwise `'light'`; never empty |
| Storage.StorageService.ImportHistory | src/services/storageService.js:103-122 | an array replaces the stored list as it is, with no cap, and resolves with its length; a read error, parse error, non-array or failed write rejects with its message and leaves the store as it was |
| Storage.SaveThenGetTheme | src/services/storageService.js:68-85 | a theme written successfully reads back unchanged, except that `''` reads back as `'light'` |
| Storage.ClearThenGet | src/services/storageService.js:30-65 | after a successful clear the history is `[]` and no id is found |
| Gemini.SdkResult | src/services/geminiService.js:78-92 | the SDK path succeeds exactly on a response with non-blank text and returns that text; a missing response and missing or blank text are failures with their own messages |
| Gemini.GenerateContentDirect | src/services/geminiService.js:49-71 | a direct call succeeds exactly when the reply is 2xx and its first candidate has non-blank text, and then returns that text; otherwise the error is the fetch rejection's message, `HTTP <status>: <body>`, the JSON-parse error, `No candidates in response`, the error from reading a malformed candidate, or `Empty response text` |
| Gemini.TryInOrder | src/services/geminiService.js:100-108 | the result is some model's successful text, and is none exactly when every model fails |
| Gemini.AttemptCount | src/services/geminiService.js:100-108 | no more models are called than are listed |
| Gemini.FirstSuccessWins | src/services/geminiService.js:100-105 | the first model that succeeds gives the result, and exactly the models up to it are called |
| Gemini.AllFailuresTryAll | src/services/geminiService.js:100-110 | when every model fails, every model is called |
| Gemini.DirectSuccessNonBlank | src/services/geminiService.js:60-64 | text won from the fallback loop is never blank |
| Gemini.Generated | src/services/geminiService.js:75-112 | the result is never blank; the only error is `Both SDK and direct API calls failed`; good SDK text is returned as it is |
| Gemini.GenerateContent | src/services/geminiService.js:75-112 | the loop returns what `Generated` specifies and makes exactly the direct calls `DirectCalls` names |
| Gemini.DirectCallsBounded | src/services/geminiService.js:75-112 | the direct calls are a prefix of the three fallback models: none after a good SDK reply, and all three when the exhaustion error is thrown |
| Gemini.FallbackFirstSuccess | src/services/geminiService.js:94-108 | after an SDK failure, the k-th model answers when the ones before it failed, and only models 0..k are called |
| Gemini.FallbackExhausted | src/services/geminiService.js:94-110 | when the SDK and all three models fail, the exhaustion error is thrown after all three direct calls |
| Gemini.TestConnection | src/services/geminiService.js:134-158 | the test succeeds exactly when the direct call to gemini-1.5-flash does, and returns that call's text; otherwise its message follows `API Connection Failed: ` |
| Gemini.FenceContains | src/services/geminiService.js:172-174 | a fenced block includes its code and its language tag |
| Gemini.FencedIn | src/services/geminiService.js:172-174 | text that includes a fenced block includes its code and language |
| Gemini.ReviewPrompt | src/services/geminiService.js:161-176 | the review prompt includes the code in a fence tagged with the language, and the difficulty |
| Gemini.ExplainPrompt | src/services/geminiService.js:212-226 | the explain prompt includes the code in an indented fence tagged with the language, and the difficulty |
| Gemini.BugsPrompt | src/services/geminiService.js:238-251 | the bugs prompt includes the code in a fence tagged with the language |
| Gemini.LineByLinePrompt | src/services/geminiService.js:263-275 | the line-by-line prompt includes the code in a fence tagged with the language, and the difficulty |
| Gemini.ComparePrompt | src/services/geminiService.js:287-305 | the compare prompt includes both snippets, each in its own fence tagged with the language |
| Gemini.RefactorPrompt | src/services/geminiService.js:317-335 | the refactor prompt includes the code in a fence tagged with the language, and the difficulty |
| Gemini.ApiErrorIsDistinct | src/services/geminiService.js:195-207 | an `API Error: ` message is none of the three specific messages |
| Gemini.ReviewErrorMessage | src/services/geminiService.js:195-207 | ordered classification: the API key message exactly when `API_KEY` occurs; the quota message exactly when `quota` or `limit` occurs and `API_KEY` does not; the network message exactly when `network` or `fetch` occurs and none of the earlier words do; else `API Error: ` with the message, or the fallback text when the message is empty |
| Gemini.ExhaustedHasNoKeyword | src/services/geminiService.js:110 | the exhaustion message contains none of `API_KEY`, `quota`, `limit`, `network`, `fetch` |
| Gemini.CodeReview | src/services/geminiService.js:160-209 | a review succeeds exactly when generation does, with its non-blank text; a failed review always throws `API Error: Both SDK and direct API calls failed` |
| Gemini.Rethrow | src/services/geminiService.js:228-234 | success passes through; a failure is rethrown with the prefix in front of its message |
| Gemini.ExplainCode | src/services/geminiService.js:211-235 | succeeds exactly when generation on the explain prompt does, with its non-blank text; otherwise `Failed to explain code: ` and the exhaustion message |
| Gemini.FindBugs | src/services/geminiService.js:237-260 | the same for the bugs prompt, with `Failed to analyze bugs: ` |
| Gemini.LineByLineExplanation | src/services/geminiService.js:262-284 | the same for the line-by-line prompt, with `Failed to provide line-by-line explanation: ` |
| Gemini.CompareCode | src/services/geminiService.js:286-314 | the same for the compare prompt, with `Failed to compare code snippets: ` |
| Gemini.RefactorCode | src/services/geminiService.js:316-344 | the same for the refactor prompt, with `Failed to refactor code: ` |
| Application.Toggled | src/App.js:60 | the new theme is `'dark'` exactly when the old one was `'light'`, and otherwise `'light'` |
| Application.ToggleTwice | src/App.js:59-64 | for the two real themes, a toggle changes the theme and two toggles restore it |
| Application.JoinSnippets | src/App.js:122 | the stored code is the first snippet, then the separator at the first snippet's length, then the second snippet |
| Application.SplitSnippets | src/App.js:141-144 | both snippets read back occur in the stored code; with no separator in it, the code is the first snippet and the second is `''` |
| Application.SnippetsRoundTrip | src/App.js:123 | storing a comparison and loading it gives back both snippets when the first separator is the one the join added and the second snippet holds none |
| Application.FirstSnippetLost | src/App.js:142-143 | a first snippet that contains the separator is not recovered |
| Application.SecondSnippetLost | src/App.js:142-144 | a second snippet that contains the separator is not recovered |
| Application.StraddlingSnippetLost | src/App.js:142-143 | the first snippet `"x\n\n--- COMPARISON ---"` holds no separator, yet joining puts a separator across its end and reading back gives `"x"` |
| Application.PromptFor | src/App.js:96-117 | each mode's prompt includes the code, or both snippets for compare, and the language; every mode but bugs and compare includes the difficulty |
| Application.FailureIsNotUnknownMode | src/App.js:115-116 | no analysis fails with the unknown-mode message |
| Application.Analysis | src/App.js:96-117 | `Unknown analysis mode` exactly for an id outside the six; a known mode succeeds exactly when generation on that mode's prompt does, with its non-blank text, and otherwise fails with that mode's one non-empty message |
| Application.App.constructor | src/App.js:21-35 | empty editors, result and error; not loading; review mode, JavaScript, intermediate, light theme |
| Application.App.Mount | src/App.js:38-56 | the theme becomes the stored theme; a failed connection test sets `API Connection Error: ` and its message; nothing else changes |
| Application.App.ToggleTheme | src/App.js:59-64 | the theme is toggled and, on a successful write, is what storage reads back; the history is untouched |
| Application.App.CanAnalyze | src/App.js:164-166 | true exactly when both snippets (compare) or the code (other modes) are non-empty after trimming |
| Application.App.HandleAnalyze | src/App.js:78-137 | when `CanAnalyze()` fails, only the guard's message is set. Otherwise loading ends false. On success the result is shown, the error is `''` and the history key becomes `AfterSave` of the entry; on failure the result is cleared to `''`, the analysis's error is shown and the history is untouched. Editors and settings never change |
| Application.HistoryInput | src/App.js:121-128 | the entry handed to the store: the code is both snippets joined for compare and the editor's code otherwise; language, mode, difficulty and result are carried over; id and timestamp are left to the store |
| Application.App.Show | src/App.js:89-136 | once the analysis has an outcome: loading ends false; the result is shown, or on failure cleared to `''` with the error shown, the fixed fallback message when the error is empty; a success is saved through `AfterSave` and a failure leaves the history untouched; editors and settings stay |
| Application.App.Record | src/App.js:129 | the history key becomes `AfterSave` of the stamped entry; the theme is untouched |
| Application.App.HandleLoadFromHistory | src/App.js:140-152 | a comparison's code is split back into the two snippets; other code goes back into the editor; mode and language are restored; difficulty defaults to intermediate and result to `''` |
| Application.App.HandleClear | src/App.js:155-161 | editors, result and error are emptied, so nothing can be analysed; settings stay |
| Application.ReloadRestores | src/App.js:140-152 | loading back the entry an analysis saves, from any state of the application, restores mode, language, result and a non-empty difficulty; the code goes back into the editor, or for a comparison whose snippets survive the join, into the two snippet editors |
| HistoryPanel.FilteredHistory | src/components/History.js:52-56 | the shown entries are exactly those whose code, mode or language, lower-cased, contains the lower-cased term; never more than the history |
| HistoryPanel.FilteredExactly | src/components/History.js:52-56 | the search result is an order-preserving subsequence that keeps every copy of a matching entry and none of the others |
| HistoryPanel.SearchIgnoresCase | src/components/History.js:52-56 | two search terms that lower-case alike select the same entries |
| HistoryPanel.SearchFindsOtherCase | src/components/History.js:52-56 | an entry whose code is `Foo` is found by the term `fOO` |
| HistoryPanel.EmptySearchKeepsEntries | src/components/History.js:52-56 | an empty term keeps exactly the entries that have a code, a mode or a language, in their order |
| HistoryPanel.Preview | src/components/History.js:172 | code of at most 200 characters is shown whole; longer code shows its first 200 characters followed by `...` |
| HistoryPanel.ModeColor | src/components/History.js:63-73 | a known mode gets its own colour classes, anything else the grey ones |
| HistoryPanel.ModeColorsDistinct | src/components/History.js:63-73 | the six modes have pairwise different badges, none of them grey |
| HistoryPanel.ImportedMessage | src/components/History.js:43 | the success alert includes the imported count in decimal |
| HistoryPanel.Panel.constructor | src/components/History.js:6-7 | the panel starts with an empty list and an empty term |
| HistoryPanel.Panel.Shown | src/components/History.js:52-56 | the panel shows exactly its entries that match its search term |
| HistoryPanel.Panel.LoadHistory | src/components/History.js:15-18 | the list becomes what the store holds |
| HistoryPanel.Panel.Search | src/components/History.js:7 | typing sets the term and keeps the list |
| HistoryPanel.Panel.HandleDelete | src/components/History.js:20-25 | only when confirmed: deletes in the store and reloads; after a successful delete the store holds exactly the list on show, which is the old one without the id, and no shown entry has it (with the undefined id of an entry that has none, no shown entry lacks an id); a refused write or a stored non-array leaves the store as it was; unconfirmed changes nothing |
| HistoryPanel.Panel.HandleClearAll | src/components/History.js:27-32 | only when confirmed: the list on show is emptied, even when clearing the store failed; a successful clear removes the history key; a failed one leaves it as it was; unconfirmed changes nothing |
| HistoryPanel.Panel.HandleImport | src/components/History.js:38-50 | no file does nothing; a successful import stores the imported list, shows it and announces its count; a failed one leaves the store and the list as they were and announces `Error importing history: ` followed by the read error, the parse error, the format message or the write error |

## Left out

- Network and SDK: `fetch` and the `GoogleGenerativeAI` SDK are replaced by the `Backend` functions. `listModels` is not part of this model; its failure is only logged. The request body, URL, API key and the floating-point `generationConfig` are not modelled.
- Asynchrony: `async`/`await`, promises and `FileReader` are left out. Each operation is one atomic step. `HandleAnalyze` does not show the intermediate state in which `loading` is true.
- JSON: `JSON.parse`/`JSON.stringify` are opaque. `Stored(list)` stands for a key holding the JSON text of that list. An import is given as the already-parsed outcome (`ImportedFile`).
- Storage.StorageService.GetHistory: a stored value that parses to something other than an array (`NonArray`) reads as `[]`. The code returns that value, and the history panel then throws when it filters it. Saving and deleting over such a value are modelled: both fail without writing.
- Storage.StorageService.GetHistoryEntry: over a stored non-array the code throws from `find`; the model reports no entry.
- Storage.Entry: every element of a stored or imported array is taken to be an object, and every field it has to be a string. An element that is not an object, such as `null`, is not modelled: on it `deleteHistoryEntry` returns `false` and the history panel's search throws. Nor is a field of another type, such as `"code": 5`: the search's `toLowerCase` throws on it.
- `exportHistory` and `handleExport`: the download (Blob, object URL, DOM anchor) is presentation.
- Ids and timestamps: `Date.now()` and `new Date().toISOString()` are parameters of `SaveToHistory`.
- Application.App.HandleLoadFromHistory: requires the entry to have code, mode and language, as every entry an analysis saves does. Imported entries without them are not modelled: the code would put `undefined` into the editor or throw on `split`.
- HistoryPanel.Preview: takes the entry's code as a string. An imported entry without code would make the panel throw.
- JsStrings.Lower: maps only ASCII letters. Full Unicode case mapping is not modelled.
- Text outside the Basic Multilingual Plane: a `char` stands for a UTF-16 code unit that is not half of a surrogate pair, so a JavaScript string with such text (an emoji, say) has no representation. Lengths, the 200-unit preview cut and `length > 200` count those characters differently in the code.
- Default parameters (`difficulty = 'intermediate'` in the service, `modelName` in `generateContentDirect`): the app always passes them.
- Logging, `window.confirm` and `alert`: confirmation is a boolean parameter, and an alert is the method's result. `console` output is not modelled.
- The DOM `dark` class toggle, `showHistory`, the clipboard copy, `ResultDisplay.formatResult` and the other UI components are presentation.
- Theme validation: the code does not restrict the theme to `light`/`dark`, and neither does the model.
