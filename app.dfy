/**
 * The application: load notes from a folder or a file, run every note
 * through the generator, and hand the collected cards to the viewer once.
 * Each method returns the status messages it shows, in order; the last one
 * is what stays on screen.
 */
module App {
  import opened Wrappers
  import opened Types
  import opened Text
  import opened Viewer
  import Gemini
  import Files

  /** Notes whose trimmed content has fewer UTF-16 units than this are skipped. */
  const MinContentLength := 100

  predicate TooShort(note: Note)
  {
    Utf16Length(Trim(note.content)) < MinContentLength
  }

  datatype Severity = InfoStatus | SuccessStatus | WarningStatus | ErrorStatus

  /** One call of showStatus: the text and its kind. */
  datatype Status = Status(message: string, severity: Severity)

  /** Turns one note into cards, or fails; generateFlashcards is one such function. */
  type Generator = Note -> Result<seq<FlashCard>, string>

  /** generateFlashcards bound to one Gemini endpoint and one JSON parser. */
  function Generate(api: string -> Result<string, string>, jsonParse: string -> Option<Json>): Generator
  {
    note => Gemini.GenerateFlashcards(note, api, jsonParse)
  }

  // ---------------------------------------------------------------------
  // What the batch loop computes, note by note

  /** What happens to one note in the loop. */
  datatype Outcome = Skipped | Generated(cards: seq<FlashCard>) | Failed

  function OutcomeOf(note: Note, generate: Generator): (o: Outcome)
    ensures o.Skipped? <==> TooShort(note)
    ensures o.Failed? <==> !TooShort(note) && generate(note).Failure?
    ensures o.Generated? ==> !TooShort(note) && generate(note) == Success(o.cards)
  {
    if TooShort(note) then Skipped
    else match generate(note)
      case Success(cards) => Generated(cards)
      case Failure(_) => Failed
  }

  /** The cards one note adds to allFlashcards. */
  function Output(o: Outcome): seq<FlashCard>
  {
    if o.Generated? then o.cards else []
  }

  /** The notes handed to the generator, in order. */
  function Calls(notes: seq<Note>): (calls: seq<Note>)
    ensures |calls| <= |notes|
    ensures forall n <- calls :: n in notes && !TooShort(n)
  {
    if notes == [] then []
    else
      var last := notes[|notes| - 1];
      Calls(notes[..|notes| - 1]) + (if TooShort(last) then [] else [last])
  }

  /** allFlashcards: the outputs of the successful calls, concatenated in order. */
  function Cards(notes: seq<Note>, generate: Generator): seq<FlashCard>
  {
    if notes == [] then []
    else Cards(notes[..|notes| - 1], generate) + Output(OutcomeOf(notes[|notes| - 1], generate))
  }

  /** errorCount: the number of calls that failed; never more than the calls made. */
  function Errors(notes: seq<Note>, generate: Generator): (e: nat)
    ensures e <= |Calls(notes)|
  {
    if notes == [] then 0
    else Errors(notes[..|notes| - 1], generate) + (if OutcomeOf(notes[|notes| - 1], generate).Failed? then 1 else 0)
  }

  /** One more note: what each of the three folds adds for it. */
  lemma BatchStep(notes: seq<Note>, note: Note, generate: Generator)
    ensures Cards(notes + [note], generate) == Cards(notes, generate) + Output(OutcomeOf(note, generate))
    ensures Errors(notes + [note], generate) == Errors(notes, generate) + (if OutcomeOf(note, generate).Failed? then 1 else 0)
    ensures Calls(notes + [note]) == Calls(notes) + (if TooShort(note) then [] else [note])
  {
    assert (notes + [note])[..|notes|] == notes;
  }

  /** A skipped note leaves all three folds as they were. */
  lemma SkippedStep(notes: seq<Note>, i: nat, generate: Generator)
    requires i < |notes| && TooShort(notes[i])
    ensures Cards(notes[..i + 1], generate) == Cards(notes[..i], generate)
    ensures Errors(notes[..i + 1], generate) == Errors(notes[..i], generate)
    ensures Calls(notes[..i + 1]) == Calls(notes[..i])
  {
    assert notes[..i + 1] == notes[..i] + [notes[i]];
    BatchStep(notes[..i], notes[i], generate);
    RightUnit(Cards(notes[..i], generate));
    RightUnit(Calls(notes[..i]));
  }

  /** A successful call appends its cards and records the call. */
  lemma GeneratedStep(notes: seq<Note>, i: nat, generate: Generator, cards: seq<FlashCard>)
    requires i < |notes| && !TooShort(notes[i]) && generate(notes[i]) == Success(cards)
    ensures Cards(notes[..i + 1], generate) == Cards(notes[..i], generate) + cards
    ensures Errors(notes[..i + 1], generate) == Errors(notes[..i], generate)
    ensures Calls(notes[..i + 1]) == Calls(notes[..i]) + [notes[i]]
  {
    assert notes[..i + 1] == notes[..i] + [notes[i]];
    BatchStep(notes[..i], notes[i], generate);
  }

  /** A failed call adds one error and records the call. */
  lemma FailedStep(notes: seq<Note>, i: nat, generate: Generator)
    requires i < |notes| && !TooShort(notes[i]) && generate(notes[i]).Failure?
    ensures Cards(notes[..i + 1], generate) == Cards(notes[..i], generate)
    ensures Errors(notes[..i + 1], generate) == Errors(notes[..i], generate) + 1
    ensures Calls(notes[..i + 1]) == Calls(notes[..i]) + [notes[i]]
  {
    assert notes[..i + 1] == notes[..i] + [notes[i]];
    BatchStep(notes[..i], notes[i], generate);
    RightUnit(Cards(notes[..i], generate));
  }

  // ---------------------------------------------------------------------
  // Status messages

  function ProgressMessage(filename: string, position: nat, total: nat): string
  {
    "Processing " + filename + " (" + NatToString(position) + "/" + NatToString(total) + ")..."
  }

  /** The progress line shown for each of the first k notes. */
  function Progress(notes: seq<Note>, k: nat): (r: seq<Status>)
    requires k <= |notes|
    ensures |r| == k
    ensures forall i :: 0 <= i < k ==> r[i] == Status(ProgressMessage(notes[i].filename, i + 1, |notes|), InfoStatus)
  {
    seq(k, i requires 0 <= i < k => Status(ProgressMessage(notes[i].filename, i + 1, |notes|), InfoStatus))
  }

  lemma ProgressStep(notes: seq<Note>, k: nat)
    requires k < |notes|
    ensures Progress(notes, k + 1) == Progress(notes, k) + [Status(ProgressMessage(notes[k].filename, k + 1, |notes|), InfoStatus)]
  {
  }

  const NoCardsMessage := "No flashcards were generated. Please check your notes and try again."
  const FailureSuffix := " files failed)"

  /** The success line: the card count, the notes that did not fail, and the failures if any. */
  function Summary(cardCount: nat, succeeded: nat, errors: nat): string
  {
    "Generated " + NatToString(cardCount) + " flashcards from " + NatToString(succeeded) + " notes."
    + (if errors > 0 then " (" + NatToString(errors) + FailureSuffix else "")
  }

  /** The status shown after the loop. */
  function FinalStatus(notes: seq<Note>, generate: Generator): Status
  {
    var cards := Cards(notes, generate);
    if cards == [] then Status(NoCardsMessage, WarningStatus)
    else Status(Summary(|cards|, |notes| - Errors(notes, generate), Errors(notes, generate)), SuccessStatus)
  }

  /** Everything processNotes shows: one progress line per note, then the outcome. */
  function BatchStatuses(notes: seq<Note>, generate: Generator): seq<Status>
  {
    Progress(notes, |notes|) + [FinalStatus(notes, generate)]
  }

  /** The viewer after processNotes: untouched without cards, otherwise given all of them at once. */
  function BatchViewer(s: ViewerState, notes: seq<Note>, generate: Generator): (r: ViewerState)
    ensures Cards(notes, generate) == [] ==> r == s
    ensures Cards(notes, generate) != [] ==> r == Add(s, Cards(notes, generate))
  {
    var cards := Cards(notes, generate);
    if cards == [] then s else Add(s, cards)
  }

  // ---------------------------------------------------------------------
  // The application's operations

  /**
   * processNotes: one pass over the notes with the three counters, then at
   * most one call of addFlashcards. `calls` records which notes reached the
   * generator.
   */
  method ProcessNotes(ui: FlashcardUI, notes: seq<Note>, generate: Generator)
    returns (shown: seq<Status>, ghost calls: seq<Note>)
    requires ui.Valid()
    modifies ui
    ensures ui.Valid()
    ensures ui.State() == BatchViewer(old(ui.State()), notes, generate)
    ensures shown == BatchStatuses(notes, generate)
    ensures calls == Calls(notes)
  {
    var allFlashcards: seq<FlashCard> := [];
    var processedCount: nat := 0;
    var errorCount: nat := 0;
    shown := [];
    calls := [];
    for i := 0 to |notes|
      invariant processedCount == i
      invariant errorCount <= processedCount
      invariant allFlashcards == Cards(notes[..i], generate)
      invariant errorCount == Errors(notes[..i], generate)
      invariant calls == Calls(notes[..i])
      invariant shown == Progress(notes, i)
      invariant ui.State() == old(ui.State()) && ui.Valid()
    {
      var note := notes[i];
      ProgressStep(notes, i);
      shown := shown + [Status(ProgressMessage(note.filename, processedCount + 1, |notes|), InfoStatus)];
      if TooShort(note) {
        SkippedStep(notes, i, generate);
        processedCount := processedCount + 1;
        continue;
      }
      calls := calls + [note];
      match generate(note) {
        case Success(flashcards) =>
          GeneratedStep(notes, i, generate, flashcards);
          allFlashcards := allFlashcards + flashcards;
          processedCount := processedCount + 1;
        case Failure(_) =>
          FailedStep(notes, i, generate);
          errorCount := errorCount + 1;
          processedCount := processedCount + 1;
      }
    }
    assert notes[..|notes|] == notes;
    if |allFlashcards| == 0 {
      shown := shown + [Status(NoCardsMessage, WarningStatus)];
    } else {
      ui.AddFlashcards(allFlashcards);
      shown := shown + [Status(Summary(|allFlashcards|, processedCount - errorCount, errorCount), SuccessStatus)];
    }
  }

  const SelectingFolder := Status("Selecting Obsidian folder...", InfoStatus)
  const FolderFailed := Status("Failed to load notes from folder. Please try again.", ErrorStatus)
  const NoMarkdown := Status("No markdown files found in the selected folder.", WarningStatus)

  function FoundNotes(count: nat): Status
  {
    Status("Found " + NatToString(count) + " notes. Generating flashcards...", InfoStatus)
  }

  /**
   * loadObsidianFolder: read the picked folder; a failure or an empty result
   * stops before any note is processed.
   */
  method LoadObsidianFolder(ui: FlashcardUI, picked: Option<seq<Files.Entry>>,
                            api: string -> Result<string, string>, jsonParse: string -> Option<Json>)
    returns (shown: seq<Status>)
    requires ui.Valid()
    modifies ui
    ensures ui.Valid()
    ensures Files.FolderNotes(picked).Failure? ==>
              shown == [SelectingFolder, FolderFailed] && ui.State() == old(ui.State())
    ensures Files.FolderNotes(picked) == Success([]) ==>
              shown == [SelectingFolder, NoMarkdown] && ui.State() == old(ui.State())
    ensures var read := Files.FolderNotes(picked);
            read.Success? && read.value != [] ==>
              && shown == [SelectingFolder, FoundNotes(|read.value|)] + BatchStatuses(read.value, Generate(api, jsonParse))
              && ui.State() == BatchViewer(old(ui.State()), read.value, Generate(api, jsonParse))
  {
    shown := [SelectingFolder];
    var read := Files.ReadObsidianNotes(picked);
    if read.Failure? {
      shown := shown + [FolderFailed];
      return;
    }
    var notes := read.value;
    if |notes| == 0 {
      shown := shown + [NoMarkdown];
      return;
    }
    shown := shown + [FoundNotes(|notes|)];
    var batch, _ := ProcessNotes(ui, notes, Generate(api, jsonParse));
    shown := shown + batch;
  }

  const SelectingFile := Status("Selecting markdown file...", InfoStatus)
  const NoFile := Status("No file selected.", WarningStatus)
  const GeneratingFromFile := Status("Generating flashcards from selected file...", InfoStatus)

  /** loadSingleFile: a missing note stops before processing; otherwise the one note is processed. */
  method LoadSingleFile(ui: FlashcardUI, picked: Option<Files.PickedFile>,
                        api: string -> Result<string, string>, jsonParse: string -> Option<Json>)
    returns (shown: seq<Status>)
    requires ui.Valid()
    modifies ui
    ensures ui.Valid()
    ensures Files.ReadSingleFile(picked).None? ==>
              shown == [SelectingFile, NoFile] && ui.State() == old(ui.State())
    ensures var note := Files.ReadSingleFile(picked);
            note.Some? ==>
              && shown == [SelectingFile, GeneratingFromFile] + BatchStatuses([note.value], Generate(api, jsonParse))
              && ui.State() == BatchViewer(old(ui.State()), [note.value], Generate(api, jsonParse))
  {
    shown := [SelectingFile];
    var note := Files.ReadSingleFile(picked);
    if note.None? {
      shown := shown + [NoFile];
      return;
    }
    shown := shown + [GeneratingFromFile];
    var batch, _ := ProcessNotes(ui, [note.value], Generate(api, jsonParse));
    shown := shown + batch;
  }

  /** clearFlashcards: empty the viewer and say so. */
  method ClearFlashcards(ui: FlashcardUI) returns (shown: seq<Status>)
    modifies ui
    ensures ui.Valid() && ui.State() == Initial
    ensures shown == [Status("Flashcards cleared.", InfoStatus)]
  {
    ui.Clear();
    shown := [Status("Flashcards cleared.", InfoStatus)];
  }

  // ---------------------------------------------------------------------
  // Properties of the batch

  /** The batch over two runs of notes is the batch over the first followed by the batch over the second. */
  lemma {:induction false} BatchAppend(a: seq<Note>, b: seq<Note>, generate: Generator)
    ensures Cards(a + b, generate) == Cards(a, generate) + Cards(b, generate)
    ensures Errors(a + b, generate) == Errors(a, generate) + Errors(b, generate)
    ensures Calls(a + b) == Calls(a) + Calls(b)
    decreases |b|
  {
    if b == [] {
      assert a + b == a;
      RightUnit(Cards(a, generate));
      RightUnit(Calls(a));
    } else {
      var front := b[..|b| - 1];
      var last := b[|b| - 1];
      assert b == front + [last];
      assert a + b == (a + front) + [last];
      BatchAppend(a, front, generate);
      BatchStep(a + front, last, generate);
      BatchStep(front, last, generate);
      var tail := Output(OutcomeOf(last, generate));
      Associative(Cards(a, generate), Cards(front, generate), tail);
      var call := if TooShort(last) then [] else [last];
      Associative(Calls(a), Calls(front), call);
    }
  }

  /**
   * The generator is consulted only on notes that are long enough: two
   * generators that agree there give the same cards and the same errors.
   */
  lemma {:induction false} ShortNotesNeverGenerated(notes: seq<Note>, g1: Generator, g2: Generator)
    requires forall i :: 0 <= i < |notes| && !TooShort(notes[i]) ==> g1(notes[i]) == g2(notes[i])
    ensures Cards(notes, g1) == Cards(notes, g2)
    ensures Errors(notes, g1) == Errors(notes, g2)
  {
    if notes != [] {
      var front := notes[..|notes| - 1];
      forall i | 0 <= i < |front| && !TooShort(front[i])
        ensures g1(front[i]) == g2(front[i])
      {
        assert front[i] == notes[i];
      }
      ShortNotesNeverGenerated(front, g1, g2);
    }
  }

  /** When every call fails, no cards are collected and every call counts as an error. */
  lemma {:induction false} AllCallsFail(notes: seq<Note>, generate: Generator)
    requires forall i :: 0 <= i < |notes| && !TooShort(notes[i]) ==> generate(notes[i]).Failure?
    ensures Cards(notes, generate) == []
    ensures Errors(notes, generate) == |Calls(notes)|
  {
    if notes != [] {
      var front := notes[..|notes| - 1];
      forall i | 0 <= i < |front| && !TooShort(front[i])
        ensures generate(front[i]).Failure?
      {
        assert front[i] == notes[i];
      }
      AllCallsFail(front, generate);
    }
  }

  /** When every call that is made succeeds, no note is counted as failed. */
  lemma {:induction false} AllCallsSucceed(notes: seq<Note>, generate: Generator)
    requires forall i :: 0 <= i < |notes| && !TooShort(notes[i]) ==> generate(notes[i]).Success?
    ensures Errors(notes, generate) == 0
  {
    if notes != [] {
      var front := notes[..|notes| - 1];
      forall i | 0 <= i < |front| && !TooShort(front[i])
        ensures generate(front[i]).Success?
      {
        assert front[i] == notes[i];
      }
      AllCallsSucceed(front, generate);
    }
  }

  /** A note that is nothing but whitespace is always skipped. */
  lemma BlankNoteSkipped(note: Note)
    requires AllSpace(note.content)
    ensures TooShort(note)
  {
    TrimStartShape(note.content);
  }

  /** The summary ends with the failure count exactly when some note failed. */
  lemma SummaryReportsFailures(cardCount: nat, succeeded: nat, errors: nat)
    ensures EndsWith(Summary(cardCount, succeeded, errors), FailureSuffix) <==> errors > 0
  {
    var head := "Generated " + NatToString(cardCount) + " flashcards from " + NatToString(succeeded) + " notes.";
    var m := Summary(cardCount, succeeded, errors);
    if errors > 0 {
      var tail := " (" + NatToString(errors);
      assert m == (head + tail) + FailureSuffix;
      assert m[|m| - |FailureSuffix|..] == FailureSuffix;
    } else {
      assert m == head;
      assert m[|m| - 1] == '.';
      assert FailureSuffix[|FailureSuffix| - 1] == ')';
      assert |FailureSuffix| <= |m| ==> m[|m| - |FailureSuffix|..][|FailureSuffix| - 1] == m[|m| - 1];
    }
  }

  /**
   * A short note, a note whose call fails and a note whose call yields `cs`:
   * the cards are `cs`, one note failed, and only the two long notes reached
   * the generator.
   */
  lemma ThreeNotes(short: Note, failing: Note, good: Note, generate: Generator, cs: seq<FlashCard>)
    requires TooShort(short) && !TooShort(failing) && !TooShort(good)
    requires generate(failing).Failure? && generate(good) == Success(cs)
    ensures Cards([short] + [failing] + [good], generate) == cs
    ensures Errors([short] + [failing] + [good], generate) == 1
    ensures Calls([short] + [failing] + [good]) == [failing] + [good]
  {
    ThreeOutcomes(short, failing, good, generate, cs);
  }

  lemma ThreeOutcomes(short: Note, failing: Note, good: Note, generate: Generator, cs: seq<FlashCard>)
    requires OutcomeOf(short, generate) == Skipped
    requires OutcomeOf(failing, generate) == Failed
    requires OutcomeOf(good, generate) == Generated(cs)
    ensures Cards([short] + [failing] + [good], generate) == cs
    ensures Errors([short] + [failing] + [good], generate) == 1
    ensures Calls([short] + [failing] + [good]) == [failing] + [good]
  {
    FirstTwoOutcomes(short, failing, generate);
    BatchStep([short] + [failing], good, generate);
    assert [] + cs == cs;
  }

  lemma FirstTwoOutcomes(short: Note, failing: Note, generate: Generator)
    requires OutcomeOf(short, generate) == Skipped
    requires OutcomeOf(failing, generate) == Failed
    ensures Cards([short] + [failing], generate) == []
    ensures Errors([short] + [failing], generate) == 1
    ensures Calls([short] + [failing]) == [failing]
  {
    BatchStep([], short, generate);
    assert [] + [short] == [short];
    BatchStep([short], failing, generate);
  }
}
