# Obsidian flashcard generator — a verified model

This project models the logic of a small browser application. The
application reads Markdown notes from an Obsidian vault (a picked folder
or a single picked file). It sends each note long enough to be worth it
to a language model, parses the JSON array of question/answer cards that
comes back, and shows the cards in a flip-card viewer.

The model has four parts, each in the form of the code it models:

- **Viewer** (`viewer.dfy`). The `FlashcardUI` class keeps its card list,
  cursor and answer flag as fields. Each of its methods is proved to follow
  a transition function on the value `ViewerState`, and to keep the cursor
  invariant. `Render` reduces the HTML to the facts it shows: the empty
  state, the counter, the source, the side and its text, the tags, and the
  two disabled buttons.
- **Reply parsing** (`gemini.dfy`). These are pure functions: the prompt
  template, reply cleaning (trim and the three fence replacements, modelled
  as the leftmost-match semantics of the regular expressions), the array
  check, and the mapping of elements to cards with ids `filename-index`.
  `JSON.parse` and the model endpoint are parameters.
- **Batch loop** (`app.dfy`). `ProcessNotes` is the imperative loop with
  its counters. Its result is proved equal to the folds `Cards`, `Errors`
  and `Calls` over the notes. The viewer hand-off and every status message
  are part of its postcondition. The two load operations and their early
  exits are methods on top of it.
- **Directory walk** (`files.dfy`). `ProcessDirectory` is the loop over a
  listing and recurses into sub-directories. It is proved equal to the pure
  walk `Walk` over an entry tree whose files carry the outcome of reading
  them. The walk is then characterised by reachability through the tree
(`Reachable`), independent of the order of the walk.

Supporting modules: `wrappers.dfy` has `Option`/`Result`. `types.dfy` has
the records, and a JSON value type for what `JSON.parse` returns. `text.dfy`
has the JavaScript string operations: the ECMAScript whitespace set used
by `trim` and by `\s`, `.length` in UTF-16 units, `startsWith`/`endsWith`,
`indexOf`, and decimal rendering of numbers.

Behaviour of the code worth knowing:

- **Card ids.** Ids are `filename-index` with the bare file name. Two notes
  with the same name in different folders therefore produce the same ids.
  `CardIdsOfDifferentFilesDiffer` shows that ids cannot collide across
  different file names, and no more than that.
- **Pacing delay.** The one-second delay runs only after a successful
  call. A failed call goes straight to the next note.
- **Error messages.** Inside parseFlashcards the specific errors ("not an
  array", a parse error) are replaced by one generic parse message.
  generateFlashcards replaces that message, and any error of the model call
  itself, by one generic generation message, and the batch only counts the
  failure.
- **Unlistable sub-directory.** A sub-directory whose enumeration throws is
  not caught per entry. It aborts the whole folder load, which then reports
  the generic folder failure. Only failed file reads are skipped.
- **Single file.** readSingleFile does not check the `.md` extension. The
  only filter is the picker's type hint.
- **Card fields.** The `question`, `answer` and `tags` of a card are
  whatever the parsed element holds, possibly `undefined` or a non-string.
  The code does not check them. A `null` element makes the property access
  throw, which fails the whole parse.

## Model

| member | source | states |
|---|---|---|
| Viewer.SetCards | src/flashcard-ui.ts:13-16 | the list becomes exactly the given cards, the cursor 0, the question side; the state is valid |
| Viewer.Previous | src/flashcard-ui.ts:117-123 | the list is kept; the state is left unchanged exactly when the cursor is 0; otherwise the cursor drops by one and the question side is shown; validity is preserved |
| Viewer.Next | src/flashcard-ui.ts:125-131 | the list is kept; nothing changes exactly when the cursor is at or past the last card, so always on an empty list; otherwise the cursor rises by one and the question side is shown; validity is preserved |
| Viewer.Flip | src/flashcard-ui.ts:133-136 | only the answer flag changes, and it is negated; validity is preserved |
| Viewer.Add | src/flashcard-ui.ts:138-146 | the new list is the old one followed by the new cards (length the sum, old cards first); cursor and flag reset exactly when the old list was empty, otherwise they are kept; validity is preserved |
| Viewer.Cleared | src/flashcard-ui.ts:148-153 | the state is the initial one: no cards, cursor 0, question side |
| Viewer.ViewerState.Valid | src/flashcard-ui.ts:13-16 | definition of the cursor invariant: cursor 0 on an empty list, otherwise below the length; every transition is proved to keep it |
| Viewer.Render | src/flashcard-ui.ts:20-78 | the empty state is shown iff the list is empty; otherwise the counter reads cursor+1 of length, the source and the text of the active side come from the current card, the answer side is shown iff the flag is set, the tags row is that of the card's tags (the elements of a tag array, nothing for anything else), prev is disabled iff the cursor is 0 and next iff it is the last index |
| Viewer.FlipTwice | src/flashcard-ui.ts:133-136 | two flips restore the state |
| Viewer.DisabledIsNoOp | src/flashcard-ui.ts:62-74 | a navigation button is disabled exactly when pressing it would change nothing |
| Viewer.NextThenPrevious | src/flashcard-ui.ts:117-131 | Next then Previous returns to the same card, question side |
| Viewer.NextReaches | src/flashcard-ui.ts:13-16 | after loading a list, pressing Next k times shows card k for every k below the length |
| Viewer.AddKeepsView | src/flashcard-ui.ts:138-146 | appending to a non-empty list keeps the card, its side, its text and its position on screen |
| Viewer.FlashcardUI.constructor | src/flashcard-ui.ts:5-11 | a new viewer has no cards, cursor 0 and shows the question; the invariant holds |
| Viewer.FlashcardUI.SetFlashcards | src/flashcard-ui.ts:13-16 | the fields become SetCards of the argument; the invariant holds |
| Viewer.FlashcardUI.PreviousCard | src/flashcard-ui.ts:117-123 | the fields become Previous of the old fields; the invariant is kept |
| Viewer.FlashcardUI.NextCard | src/flashcard-ui.ts:125-131 | the fields become Next of the old fields; the invariant is kept |
| Viewer.FlashcardUI.FlipCard | src/flashcard-ui.ts:133-136 | the fields become Flip of the old fields; the invariant is kept |
| Viewer.FlashcardUI.AddFlashcards | src/flashcard-ui.ts:138-146 | the fields become Add of the old fields and the new cards; the invariant is kept |
| Viewer.FlashcardUI.Clear | src/flashcard-ui.ts:148-153 | the fields return to the initial state from any state |
| Text.Trim | src/gemini-service.ts:63 | definition of trim as used for the reply and for the note length test (src/flashcard-app.ts:113); its properties are proved in TrimShape, TrimPadded, TrimIdempotent and TrimAbsorbsPadding |
| Text.TrimStartShape | src/gemini-service.ts:63 | trimming the front removes a run of whitespace and stops at a non-space |
| Text.TrimEndShape | src/gemini-service.ts:63 | trimming the back removes a run of whitespace and stops at a non-space |
| Text.TrimShape | src/gemini-service.ts:63 | a trimmed text is no longer than the input and neither starts nor ends with whitespace |
| Text.TrimPadded | src/gemini-service.ts:63 | trimming a text with no whitespace at its ends, padded with whitespace, gives back exactly that text |
| Text.TrimIdempotent | src/gemini-service.ts:63 | trimming twice is trimming once |
| Text.TrimAbsorbsPadding | src/gemini-service.ts:63 | extra whitespace around a text does not change its trim |
| Text.Utf16Length | src/flashcard-app.ts:113 | `.length` counts between one and two units per character |
| Text.IndexOf | src/gemini-service.ts:66-67 | the first occurrence of a pattern, none before it, and none at all exactly when the pattern does not occur |
| Text.NatToString | src/gemini-service.ts:76 | the decimal text of a number is non-empty, all digits, without a leading zero |
| Text.DecimalOfNatToString | src/gemini-service.ts:76 | reading the decimal text back gives the number |
| Text.NatToStringInjective | src/gemini-service.ts:76 | different numbers have different decimal texts |
| Gemini.CreatePrompt | src/gemini-service.ts:29-58 | definition: the fixed template with the filename and the content substituted; its property is proved in PromptRoundTrip |
| Gemini.CleanResponse | src/gemini-service.ts:63-67 | definition: trim, then the three replacements in order; its properties are proved in CleanIgnoresSurroundingSpace, CleanUnfenced, CleanJsonFenced and CleanPlainFenced |
| Gemini.RemoveMarker | src/gemini-service.ts:66-67 | definition of replacing the first match of a marker followed by `\s*`; its properties are proved in RemoveMarkerAtFront and RemoveMarkerAbsent |
| Gemini.RemoveClosingFence | src/gemini-service.ts:66 | definition of replacing the match of /```\s*$/, located by ClosingFenceFrom; its property is proved in RemoveClosingFenceAtEnd |
| Gemini.CardId | src/gemini-service.ts:76 | definition of the id `filename-index`; its properties are proved in CardIdInjective, ParsedIdsDistinct and CardIdsOfDifferentFilesDiffer |
| Gemini.Get | src/gemini-service.ts:77-80 | definition of reading a property of a parsed element: the Lookup of an object, undefined on anything else |
| Gemini.TagsOrEmpty | src/gemini-service.ts:80 | definition of `tags \|\| []`: the tags when truthy, otherwise the empty array; used in the contracts of MapCards and ParseFlashcards |
| Gemini.PromptRoundTrip | src/gemini-service.ts:29-58 | the prompt is the fixed template with filename and content substituted verbatim: both can be read back from it when the filename has no line break |
| Gemini.ReadTemplateRoundTrip | src/gemini-service.ts:35-37 | a filled template determines its two fields |
| Gemini.FirstLineBreak | src/gemini-service.ts:35-36 | the filename field ends at the first line break after it |
| Gemini.SpaceRun | src/gemini-service.ts:66-67 | `\s*` consumes the maximal run of whitespace at its position |
| Gemini.ClosingFenceFrom | src/gemini-service.ts:66 | `/```\s*$/` matches at its leftmost position: a fence followed only by whitespace, with no such fence earlier |
| Gemini.CleanIgnoresSurroundingSpace | src/gemini-service.ts:63 | cleaning begins with trim: whitespace around the reply never changes what is parsed |
| Gemini.CleanTrimmed | src/gemini-service.ts:63 | cleaning a trimmed reply gives the same text as cleaning the original |
| Gemini.CleanUnfenced | src/gemini-service.ts:66-67 | a trimmed reply with no triple backtick is parsed exactly as trimmed |
| Gemini.CleanJsonFenced | src/gemini-service.ts:63-67 | a reply "```json" + whitespace + B + whitespace + "```" (with whitespace around it) is cleaned to B plus the whitespace before the closing fence |
| Gemini.CleanPlainFenced | src/gemini-service.ts:63-67 | the same for a plain "```" opening fence, when the body is not taken for a json marker |
| Gemini.NoJsonFenceInPlainFenced | src/gemini-service.ts:66 | a plain-fenced reply contains no "```json" marker, so the first replacement leaves it alone |
| Gemini.RemoveMarkerAtFront | src/gemini-service.ts:66-67 | a marker at the very front is removed together with the whitespace after it |
| Gemini.RemoveMarkerAbsent | src/gemini-service.ts:66-67 | a replacement whose pattern does not occur leaves the text unchanged |
| Gemini.RemoveClosingFenceAtEnd | src/gemini-service.ts:66 | a fence followed only by whitespace at the end is removed with that whitespace |
| Gemini.JsonFencedReply | src/gemini-service.ts:63-67 | a reply fenced as "```json\n...\n```" is cleaned to its body and one newline |
| Gemini.Lookup | src/gemini-service.ts:77-80 | a property is defined iff the object has that key, and its value is the one of the last such key |
| Gemini.MapCards | src/gemini-service.ts:75-81 | the map succeeds iff no element is null (the first null is the fault); card i has id filename-(start+i), the element's question and answer, the filename as source, and its tags or [] when they are falsy |
| Gemini.Decode | src/gemini-service.ts:71-73 | a parsed value that is not an array is rejected |
| Gemini.ParseFlashcards | src/gemini-service.ts:60-87 | succeeds iff the cleaned reply parses to an array without null elements; then there is one card per element with id filename-i, copied question and answer, the filename as source and defaulted tags; any failure is the one generic parse error and no cards |
| Gemini.GenerateFlashcards | src/gemini-service.ts:15-27 | succeeds iff the call on the prompt for the note succeeds and its reply parses, giving the parsed cards; any failure is the one generic generation error |
| Gemini.CardIdInjective | src/gemini-service.ts:76 | two ids for the same file are equal only for the same index |
| Gemini.ParsedIdsDistinct | src/gemini-service.ts:75-76 | the ids of the cards from one reply are pairwise distinct |
| Gemini.CardIdsOfDifferentFilesDiffer | src/gemini-service.ts:76 | ids for different file names never coincide |
| Gemini.NoBacktickNoFence | src/gemini-service.ts:66-67 | a text without backticks contains no fence |
| Gemini.OneCardDecoded | src/gemini-service.ts:71-81 | a one-object array becomes one card with id filename-0 and the object's fields |
| Gemini.OneCardReply | src/gemini-service.ts:60-87 | a json-fenced reply holding one object parses to that one card |
| Gemini.InvalidReplyFails | src/gemini-service.ts:82-86 | a reply that does not parse gives the generic error |
| App.TooShort | src/flashcard-app.ts:113 | definition of the skip test: the trimmed content has fewer than 100 UTF-16 units; its properties are proved in OutcomeOf, BlankNoteSkipped and ShortNotesNeverGenerated |
| App.Cards | src/flashcard-app.ts:104-120 | definition of allFlashcards as the in-order concatenation of the outputs of successful calls; its properties are proved in BatchStep, BatchAppend, AllCallsFail and ProcessNotes |
| App.ProgressMessage | src/flashcard-app.ts:110 | definition of the progress text; used in the contract of Progress |
| App.FoundNotes | src/flashcard-app.ts:69 | definition of the found-notes status; used in the contract of LoadObsidianFolder |
| App.Summary | src/flashcard-app.ts:137-139 | definition of the success text; its property is proved in SummaryReportsFailures |
| App.FinalStatus | src/flashcard-app.ts:133-140 | definition of the closing status: the no-cards warning without cards, otherwise the summary with the card count, the notes that did not fail and the failures; used in the contract of ProcessNotes |
| App.BatchStatuses | src/flashcard-app.ts:108-140 | definition of everything processNotes shows: one progress line per note, then the closing status; used in the contract of ProcessNotes |
| App.OutcomeOf | src/flashcard-app.ts:113-130 | a note is skipped iff its trimmed content is shorter than 100 units; otherwise it fails iff the generator fails, and its cards are the generator's |
| App.Calls | src/flashcard-app.ts:113-119 | only notes that are long enough reach the generator, and at most one call per note |
| App.Errors | src/flashcard-app.ts:126-130 | the failure count never exceeds the number of generator calls |
| App.BatchStep | src/flashcard-app.ts:108-131 | one more note appends its output to the cards, adds one to the failures iff it failed, and one call iff it is long enough |
| App.SkippedStep | src/flashcard-app.ts:113-117 | a skipped note changes neither cards, failures nor calls |
| App.GeneratedStep | src/flashcard-app.ts:119-121 | a successful note appends its cards and records one call |
| App.FailedStep | src/flashcard-app.ts:126-130 | a failing note adds one failure, records one call and no cards |
| App.Progress | src/flashcard-app.ts:110 | the progress line for note i reads its filename and i+1 of the total |
| App.ProgressStep | src/flashcard-app.ts:110 | one more progress line is appended per note |
| App.BatchViewer | src/flashcard-app.ts:133-136 | without cards the viewer is untouched; otherwise all the cards are appended at once |
| App.ProcessNotes | src/flashcard-app.ts:103-141 | after the loop the viewer is BatchViewer of the old state; the shown statuses are one progress line per note then the summary or the no-cards warning; the generator was called on exactly the long-enough notes; in the loop the processed count is the index and the failures never exceed it |
| App.LoadObsidianFolder | src/flashcard-app.ts:57-78 | a failed read shows the folder error and an empty folder the warning, both without touching the viewer; otherwise the notes are counted and processed |
| App.LoadSingleFile | src/flashcard-app.ts:80-101 | no file shows the warning without touching the viewer; otherwise the one note is processed |
| App.ClearFlashcards | src/flashcard-app.ts:143-146 | the viewer returns to the initial state and the cleared message is shown |
| App.BatchAppend | src/flashcard-app.ts:108-131 | the batch over two runs of notes is the batch over the first followed by the second: cards in order, failures and calls add up |
| App.ShortNotesNeverGenerated | src/flashcard-app.ts:113-117 | two generators that agree on the long notes give the same cards and failures: short notes are never generated |
| App.AllCallsFail | src/flashcard-app.ts:126-130 | when every call fails there are no cards and one failure per call |
| App.AllCallsSucceed | src/flashcard-app.ts:119-121 | when every call succeeds there are no failures |
| App.BlankNoteSkipped | src/flashcard-app.ts:113 | a note of whitespace only is skipped |
| App.SummaryReportsFailures | src/flashcard-app.ts:137-139 | the summary ends with the failure suffix exactly when some note failed |
| App.ThreeNotes | src/flashcard-app.ts:108-131 | a short, a failing and a good note give the good note's cards, one failure, and calls for only the two long notes |
| App.ThreeOutcomes | src/flashcard-app.ts:108-131 | the same stated through the outcome of each note |
| App.FirstTwoOutcomes | src/flashcard-app.ts:108-131 | a skipped then a failed note give no cards and one failure |
| Files.IsMarkdown | src/file-service.ts:25 | definition of the `.md` name test; used in WalkNotesWellFormed and WalkFindsExactlyReachable |
| Files.IsHidden | src/file-service.ts:38 | definition of the leading-dot name test; used in HiddenDirectorySkipped and HiddenMarkdownFileKept |
| Files.Walk | src/file-service.ts:21-43 | definition of the notes the walk of a listing pushes, in order; its properties are proved in ProcessDirectory, WalkAppend, WalkFindsExactlyReachable and WalkNotesWellFormed |
| Files.WalkEntry | src/file-service.ts:25-41 | definition of the notes one entry contributes; its properties are proved in ProcessEntry, WalkEntryFindsExactlyReachable and WalkEntryNotesWellFormed |
| Files.JoinPath | src/file-service.ts:23 | the path is the name at the top level and parent + "/" + name below it; it always ends with the name |
| Files.Then | src/file-service.ts:22-42 | the walk of two parts fails iff one part fails, and otherwise concatenates their notes |
| Files.ProcessEntry | src/file-service.ts:25-41 | one entry pushes exactly WalkEntry's notes onto those gathered so far, and fails iff WalkEntry fails |
| Files.ProcessDirectory | src/file-service.ts:21-43 | the walk appends exactly Walk's notes, in order, to the notes passed in, and fails iff Walk fails |
| Files.WalkStep | src/file-service.ts:22 | walking one more entry of a listing joins its notes after the earlier ones |
| Files.WalkFailurePersists | src/file-service.ts:22-42 | once part of a listing fails, the whole walk fails |
| Files.FolderNotes | src/file-service.ts:4-19 | a cancelled pick or a failed walk gives the generic folder error; otherwise the notes of the walk from the empty path |
| Files.ReadObsidianNotes | src/file-service.ts:4-19 | computes FolderNotes |
| Files.ReadSingleFile | src/file-service.ts:45-70 | a note exists iff a file was picked and read, and then its path is its name and its content the text read |
| Files.WalkFindsExactlyReachable | src/file-service.ts:21-43 | a note is produced iff it is a readable markdown file reachable through directories not named ".*", with the joined path |
| Files.WalkEntryFindsExactlyReachable | src/file-service.ts:25-41 | the same for one entry |
| Files.ReachableSplit | src/file-service.ts:22 | being reachable from a listing is being reachable from its front or from its last entry |
| Files.WalkNotesWellFormed | src/file-service.ts:25-34 | every note comes from a ".md" file, its path ends with its filename and lies below the starting path |
| Files.WalkEntryNotesWellFormed | src/file-service.ts:25-40 | the same for one entry |
| Files.BelowIsBelow | src/file-service.ts:23 | a path below a sub-directory is below its parent |
| Files.WalkAppend | src/file-service.ts:22-40 | depth-first in entry order: the walk of two listings is the first's notes followed by the second's |
| Files.ThenUnit | src/file-service.ts:22 | joining with an empty outcome changes nothing |
| Files.ThenAssociative | src/file-service.ts:22 | joining outcomes is associative |
| Files.UnreadableFileSkipped | src/file-service.ts:26-37 | a file whose read fails is dropped and the entries after it are still walked |
| Files.HiddenMarkdownFileKept | src/file-service.ts:25-34 | the hidden-name rule does not apply to files: a ".x.md" file is read |
| Files.HiddenDirectorySkipped | src/file-service.ts:38-40 | a directory named ".*" contributes nothing, even one that cannot be listed |

## Left out

- HTML output of render, the event-listener wiring and the keyboard handler. Only the facts render shows are modelled. Each render also adds one more document keydown listener (src/flashcard-ui.ts:98); that duplication is not modelled.
- Converting a non-string question or answer to text when it is put into HTML. View keeps the raw values.
- render throwing on tags that have a positive `length` but no `map`, such as a non-empty string (src/flashcard-ui.ts:58). When the card on screen has such tags, addFlashcards has already pushed the cards (src/flashcard-ui.ts:139) before render throws. The exception then escapes processNotes at src/flashcard-app.ts:136, so no summary is shown. loadObsidianFolder shows its folder-failure message instead (src/flashcard-app.ts:72-74), and loadSingleFile its file-failure message (src/flashcard-app.ts:95-97). The model's Render returns the tag value instead of throwing, and ProcessNotes promises the summary in this case too.
- The Gemini SDK, the API key and the model name. The model endpoint is a parameter `api` that may fail.
- JSON.parse. It is a parameter that returns a JSON value or fails; no JSON parser is written.
- The directory and file pickers, and the browser support checks (src/file-service.ts:72-74, src/flashcard-app.ts:45-55). A picked folder is a given entry tree, and a picked file is a name with the outcome of reading it.
- The `.md` type hint of the file picker. It lives in the browser, not in the application's code.
- The one-second pacing delay, the five-second auto-hide of the status bar and showLoading. These are timers and display only.
- Asynchronous scheduling and console logging. The model is sequential.
- Floating point. JSON numbers are reals and are used only for their truthiness.
- Aliasing. setFlashcards keeps the caller's array by reference; with sequences the model has no sharing.
- The message "Failed to load the selected file" (src/flashcard-app.ts:97) cannot be reached in the model. Its catch guards only against throws from the layers left out above, such as the render throw just described.
- main.ts and the GeminiResponse record (src/types.ts:15-17), which the core does not use.
