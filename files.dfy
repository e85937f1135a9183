/**
 * Reading notes from a picked folder or a picked file. The folder is a
 * tree of entries as the directory handles enumerate them; what the
 * browser's file API does is reduced to the outcome of each read.
 */
module Files {
  import opened Wrappers
  import opened Types
  import opened Text

  /**
   * One entry of a directory listing. A file carries the outcome of reading
   * its text (None when getFile or text() throws); a directory carries its
   * entries, or is unlistable when enumerating it throws.
   */
  datatype Entry =
    | FileEntry(name: string, read: Option<string>)
    | DirectoryEntry(name: string, entries: seq<Entry>)
    | UnlistableDirectory(name: string)

  const ReadFolderFailure := "Failed to read notes from selected directory"

  /** `path ? `${path}/${name}` : name`. */
  function JoinPath(path: string, name: string): (r: string)
    ensures EndsWith(r, name)
    ensures path == "" ==> r == name
    ensures path != "" ==> StartsWith(r, path + "/") && |r| == |path| + 1 + |name|
  {
    if path == "" then name else path + "/" + name
  }

  predicate IsMarkdown(name: string)
  {
    EndsWith(name, ".md")
  }

  predicate IsHidden(name: string)
  {
    StartsWith(name, ".")
  }

  // ---------------------------------------------------------------------
  // The walk as a function

  /** Joins two outcomes of the walk: a failure anywhere is a failure. */
  function Then(a: Option<seq<Note>>, b: Option<seq<Note>>): (r: Option<seq<Note>>)
    ensures r.Some? <==> a.Some? && b.Some?
    ensures r.Some? ==> r.value == a.value + b.value
  {
    if a.Some? && b.Some? then Some(a.value + b.value) else None
  }

  /**
   * The notes processDirectory pushes for `entries` listed under `path`, in
   * push order; None when enumerating a visited directory throws, which
   * aborts the whole walk.
   */
  function Walk(entries: seq<Entry>, path: string): Option<seq<Note>>
    decreases entries
  {
    if entries == [] then Some([])
    else Then(Walk(entries[..|entries| - 1], path), WalkEntry(entries[|entries| - 1], path))
  }

  /**
   * One entry: a markdown file becomes a note unless its read fails; a
   * directory is descended into unless its name starts with ".".
   */
  function WalkEntry(e: Entry, path: string): Option<seq<Note>>
    decreases e
  {
    var current := JoinPath(path, e.name);
    match e
    case FileEntry(name, read) =>
      if IsMarkdown(name) && read.Some? then Some([Note(name, read.value, current)]) else Some([])
    case DirectoryEntry(name, entries) =>
      if IsHidden(name) then Some([]) else Walk(entries, current)
    case UnlistableDirectory(name) =>
      if IsHidden(name) then Some([]) else None
  }

  // ---------------------------------------------------------------------
  // The walk as the source runs it

  /**
   * processDirectory: go through the entries in order, pushing onto the
   * notes gathered so far; a visited directory whose enumeration throws
   * ends the walk with a failure.
   */
  method ProcessDirectory(entries: seq<Entry>, notes: seq<Note>, path: string) returns (result: Option<seq<Note>>)
    ensures result.Some? <==> Walk(entries, path).Some?
    ensures result.Some? ==> result.value == notes + Walk(entries, path).value
    decreases entries
  {
    var gathered := notes;
    for i := 0 to |entries|
      invariant Walk(entries[..i], path).Some?
      invariant gathered == notes + Walk(entries[..i], path).value
    {
      var step := ProcessEntry(entries[i], gathered, path);
      WalkStep(entries, i, path);
      if step.None? {
        WalkFailurePersists(entries, i + 1, path);
        return None;
      }
      Associative(notes, Walk(entries[..i], path).value, WalkEntry(entries[i], path).value);
      gathered := step.value;
    }
    assert entries[..|entries|] == entries;
    return Some(gathered);
  }

  /**
   * The body of the loop in processDirectory for one entry: push a readable
   * markdown file, descend into a directory not named ".*", skip the rest.
   */
  method ProcessEntry(e: Entry, gathered: seq<Note>, path: string) returns (result: Option<seq<Note>>)
    ensures result.Some? <==> WalkEntry(e, path).Some?
    ensures result.Some? ==> result.value == gathered + WalkEntry(e, path).value
    decreases e
  {
    var current := JoinPath(path, e.name);
    match e {
      case FileEntry(name, read) =>
        if IsMarkdown(name) && read.Some? {
          return Some(gathered + [Note(name, read.value, current)]);
        }
      case DirectoryEntry(name, children) =>
        if !IsHidden(name) {
          result := ProcessDirectory(children, gathered, current);
          return;
        }
      case UnlistableDirectory(name) =>
        if !IsHidden(name) {
          return None;
        }
    }
    assert gathered + [] == gathered;
    return Some(gathered);
  }

  /** Walking one more entry of a listing. */
  lemma WalkStep(entries: seq<Entry>, i: nat, path: string)
    requires i < |entries|
    ensures Walk(entries[..i + 1], path) == Then(Walk(entries[..i], path), WalkEntry(entries[i], path))
  {
    assert entries[..i + 1][..i] == entries[..i];
  }

  /** Once a prefix of the entries fails, the whole listing fails. */
  lemma {:induction false} WalkFailurePersists(entries: seq<Entry>, k: nat, path: string)
    requires k <= |entries|
    requires Walk(entries[..k], path).None?
    ensures Walk(entries, path).None?
    decreases |entries| - k
  {
    if k < |entries| {
      assert entries[..k + 1][..k] == entries[..k];
      WalkFailurePersists(entries, k + 1, path);
    } else {
      assert entries[..k] == entries;
    }
  }

  /** readObsidianNotes: walk the picked folder from the empty path; a cancelled pick or a failed walk is one error. */
  function FolderNotes(picked: Option<seq<Entry>>): (r: Result<seq<Note>, string>)
    ensures r.Failure? ==> r.error == ReadFolderFailure
    ensures r.Success? <==> picked.Some? && Walk(picked.value, "").Some?
    ensures r.Success? ==> r.value == Walk(picked.value, "").value
  {
    if picked.None? then Failure(ReadFolderFailure)
    else match Walk(picked.value, "")
      case None => Failure(ReadFolderFailure)
      case Some(notes) => Success(notes)
  }

  method ReadObsidianNotes(picked: Option<seq<Entry>>) returns (r: Result<seq<Note>, string>)
    ensures r == FolderNotes(picked)
  {
    if picked.None? {
      return Failure(ReadFolderFailure);
    }
    var walked := ProcessDirectory(picked.value, [], "");
    if walked.None? {
      return Failure(ReadFolderFailure);
    }
    assert [] + Walk(picked.value, "").value == Walk(picked.value, "").value;
    return Success(walked.value);
  }

  /** A file picked on its own: its name and the outcome of reading it. */
  datatype PickedFile = PickedFile(name: string, content: Option<string>)

  /** readSingleFile: the picked file as a note whose path is its name; a cancelled pick or a failed read is null. */
  function ReadSingleFile(picked: Option<PickedFile>): (r: Option<Note>)
    ensures r.Some? <==> picked.Some? && picked.value.content.Some?
    ensures r.Some? ==> && r.value.filename == picked.value.name
                        && r.value.path == r.value.filename
                        && r.value.content == picked.value.content.value
  {
    match picked
    case Some(PickedFile(name, Some(content))) => Some(Note(name, content, name))
    case _ => None
  }

  // ---------------------------------------------------------------------
  // Properties of the walk

  /** The notes of a file or directory reachable from `entries` under `path`, stated without the walk. */
  predicate Reachable(entries: seq<Entry>, path: string, n: Note)
    decreases entries
  {
    exists i :: 0 <= i < |entries| && ReachableEntry(entries[i], path, n)
  }

  predicate ReachableEntry(e: Entry, path: string, n: Note)
    decreases e
  {
    match e
    case FileEntry(name, read) =>
      IsMarkdown(name) && read.Some? && n == Note(name, read.value, JoinPath(path, name))
    case DirectoryEntry(name, entries) =>
      !IsHidden(name) && Reachable(entries, JoinPath(path, name), n)
    case UnlistableDirectory(_) => false
  }

  /**
   * A successful walk yields exactly the readable markdown files that sit
   * below non-hidden directories, each with its full path.
   */
  lemma {:induction false} WalkFindsExactlyReachable(entries: seq<Entry>, path: string, n: Note)
    requires Walk(entries, path).Some?
    ensures n in Walk(entries, path).value <==> Reachable(entries, path, n)
    decreases entries
  {
    if entries != [] {
      var front := entries[..|entries| - 1];
      var last := entries[|entries| - 1];
      WalkFindsExactlyReachable(front, path, n);
      WalkEntryFindsExactlyReachable(last, path, n);
      ReachableSplit(entries, path, n);
    }
  }

  /** Being reachable from a listing is being reachable from all but its last entry, or from the last. */
  lemma ReachableSplit(entries: seq<Entry>, path: string, n: Note)
    requires entries != []
    ensures Reachable(entries, path, n)
            <==> Reachable(entries[..|entries| - 1], path, n) || ReachableEntry(entries[|entries| - 1], path, n)
  {
    var front := entries[..|entries| - 1];
    forall i | 0 <= i < |front|
      ensures front[i] == entries[i]
    {
    }
  }

  lemma {:induction false} WalkEntryFindsExactlyReachable(e: Entry, path: string, n: Note)
    requires WalkEntry(e, path).Some?
    ensures n in WalkEntry(e, path).value <==> ReachableEntry(e, path, n)
    decreases e
  {
    match e
    case FileEntry(_, _) =>
    case UnlistableDirectory(_) =>
    case DirectoryEntry(name, entries) =>
      if !IsHidden(name) {
        WalkFindsExactlyReachable(entries, JoinPath(path, name), n);
      }
  }

  /** Every note is a markdown file whose path ends with its filename and lies below the starting path. */
  lemma {:induction false} WalkNotesWellFormed(entries: seq<Entry>, path: string)
    requires Walk(entries, path).Some?
    ensures forall n <- Walk(entries, path).value ::
              && IsMarkdown(n.filename)
              && EndsWith(n.path, n.filename)
              && (path != "" ==> StartsWith(n.path, path + "/"))
    decreases entries
  {
    if entries != [] {
      WalkNotesWellFormed(entries[..|entries| - 1], path);
      WalkEntryNotesWellFormed(entries[|entries| - 1], path);
    }
  }

  lemma {:induction false} WalkEntryNotesWellFormed(e: Entry, path: string)
    requires WalkEntry(e, path).Some?
    ensures forall n <- WalkEntry(e, path).value ::
              && IsMarkdown(n.filename)
              && EndsWith(n.path, n.filename)
              && (path != "" ==> StartsWith(n.path, path + "/"))
    decreases e
  {
    match e
    case FileEntry(_, _) =>
    case UnlistableDirectory(_) =>
    case DirectoryEntry(name, entries) =>
      if !IsHidden(name) {
        var current := JoinPath(path, name);
        WalkNotesWellFormed(entries, current);
        forall n <- WalkEntry(e, path).value
          ensures path != "" ==> StartsWith(n.path, path + "/")
        {
          if path != "" {
            BelowIsBelow(path, current, n.path);
          }
        }
      }
  }

  /** A path below `path + "/" + name` is also below `path`. */
  lemma BelowIsBelow(path: string, current: string, p: string)
    requires StartsWith(current, path + "/")
    requires StartsWith(p, current + "/")
    ensures StartsWith(p, path + "/")
  {
    assert p[..|path| + 1] == p[..|current| + 1][..|path| + 1];
    assert current[..|path| + 1] == (current + "/")[..|path| + 1];
  }

  /** The walk of two listings one after the other is the walk of the first followed by the walk of the second. */
  lemma {:induction false} WalkAppend(a: seq<Entry>, b: seq<Entry>, path: string)
    ensures Walk(a + b, path) == Then(Walk(a, path), Walk(b, path))
    decreases |b|
  {
    if b == [] {
      assert a + b == a;
      ThenUnit(Walk(a, path));
    } else {
      var front := b[..|b| - 1];
      assert (a + b)[..|a + b| - 1] == a + front;
      assert (a + b)[|a + b| - 1] == b[|b| - 1];
      WalkAppend(a, front, path);
      ThenAssociative(Walk(a, path), Walk(front, path), WalkEntry(b[|b| - 1], path));
    }
  }

  lemma ThenUnit(x: Option<seq<Note>>)
    ensures Then(x, Some([])) == x
  {
    if x.Some? {
      assert x.value + [] == x.value;
    }
  }

  lemma ThenAssociative(x: Option<seq<Note>>, y: Option<seq<Note>>, z: Option<seq<Note>>)
    ensures Then(Then(x, y), z) == Then(x, Then(y, z))
  {
    if x.Some? && y.Some? && z.Some? {
      assert x.value + y.value + z.value == x.value + (y.value + z.value);
    }
  }

  /** A file whose read fails is dropped and the entries after it are still walked. */
  lemma UnreadableFileSkipped(before: seq<Entry>, name: string, after: seq<Entry>, path: string)
    ensures Walk(before + [FileEntry(name, None)] + after, path) == Walk(before + after, path)
  {
    WalkAppend(before + [FileEntry(name, None)], after, path);
    WalkAppend(before, [FileEntry(name, None)], path);
    WalkAppend(before, after, path);
    assert [FileEntry(name, None)][..0] == [];
    assert Walk([FileEntry(name, None)], path) == Some([]);
    ThenUnit(Walk(before, path));
  }

  /** The hidden-name rule is for directories only: a markdown file named ".x.md" is still read. */
  lemma HiddenMarkdownFileKept(name: string, content: string, path: string)
    requires IsHidden(name) && IsMarkdown(name)
    ensures Walk([FileEntry(name, Some(content))], path) == Some([Note(name, content, JoinPath(path, name))])
  {
    assert [FileEntry(name, Some(content))][..0] == [];
    assert [] + [Note(name, content, JoinPath(path, name))] == [Note(name, content, JoinPath(path, name))];
  }

  /** A hidden directory contributes nothing, even when enumerating it would fail. */
  lemma HiddenDirectorySkipped(name: string, entries: seq<Entry>, path: string)
    requires IsHidden(name)
    ensures WalkEntry(DirectoryEntry(name, entries), path) == Some([])
    ensures WalkEntry(UnlistableDirectory(name), path) == Some([])
  {
  }
}
