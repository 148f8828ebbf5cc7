/**
 * server.js: the note upsert of the `/save-note` handler and the sequential, stop-at-first-error
 * stepping of `runScripts`. Express routing, the file reads and writes and the child processes
 * are outside the model; a script's outcome is given by `fails`.
 */
module Server {
  import opened Wrappers

  /** One element of `notes` in notes.json. */
  datatype Note = Note(title: string, content: string)

  /** `notes.find(note => note.title === title)`, as the index of the note it yields. */
  function FindTitle(notes: seq<Note>, title: string): (i: Option<nat>)
    ensures i.None? <==> forall k :: 0 <= k < |notes| ==> notes[k].title != title
    ensures i.Some? ==>
      (i.value < |notes| && notes[i.value].title == title && forall k :: 0 <= k < i.value ==> notes[k].title != title)
    decreases |notes|
  {
    if notes == [] then None
    else if notes[0].title == title then Some(0)
    else
      assert forall k :: 1 <= k < |notes| ==> notes[1..][k - 1] == notes[k];
      match FindTitle(notes[1..], title)
      case None => None
      case Some(j) => Some(j + 1)
  }

  /** The list after lines 43-48: the first note with the title gets the content, or a note is appended. */
  function Upsert(notes: seq<Note>, title: string, content: string): seq<Note> {
    match FindTitle(notes, title)
    case Some(i) => notes[i := notes[i].(content := content)]
    case None => notes + [Note(title, content)]
  }

  /** With a note of that title, the first one has its content replaced and nothing else changes. */
  lemma UpsertReplacesFirst(notes: seq<Note>, title: string, content: string, i: nat)
    requires i < |notes| && notes[i].title == title
    requires forall k :: 0 <= k < i ==> notes[k].title != title
    ensures |Upsert(notes, title, content)| == |notes|
    ensures Upsert(notes, title, content)[i] == Note(title, content)
    ensures forall k :: 0 <= k < |notes| && k != i ==> Upsert(notes, title, content)[k] == notes[k]
  {
    assert FindTitle(notes, title) == Some(i);
  }

  /** Without a note of that title, `{title, content}` is appended and the count rises by one. */
  lemma UpsertAppends(notes: seq<Note>, title: string, content: string)
    requires forall k :: 0 <= k < |notes| ==> notes[k].title != title
    ensures Upsert(notes, title, content) == notes + [Note(title, content)]
    ensures |Upsert(notes, title, content)| == |notes| + 1
  {
  }

  /** Afterwards the note found by the title holds the new content. */
  lemma {:induction false} UpsertThenFind(notes: seq<Note>, title: string, content: string)
    ensures var r := Upsert(notes, title, content);
      FindTitle(r, title).Some? && r[FindTitle(r, title).value] == Note(title, content)
  {
    var r := Upsert(notes, title, content);
    match FindTitle(notes, title)
    case Some(i) =>
      UpsertReplacesFirst(notes, title, content, i);
      assert r[i].title == title;
      assert FindTitle(r, title) == Some(i);
    case None =>
      UpsertAppends(notes, title, content);
      assert r[|notes|].title == title;
      assert forall k :: 0 <= k < |notes| ==> r[k] == notes[k];
  }

  /** The search for a title only looks at where that title occurs. */
  lemma {:induction false} FindTitleByOccurrences(a: seq<Note>, b: seq<Note>, title: string)
    requires forall k :: 0 <= k < |b| ==> (b[k].title == title <==> k < |a| && a[k].title == title)
    requires forall k :: 0 <= k < |a| && a[k].title == title ==> k < |b|
    ensures FindTitle(a, title) == FindTitle(b, title)
  {
    match FindTitle(a, title)
    case None =>
      assert forall k :: 0 <= k < |b| ==> b[k].title != title;
    case Some(i) =>
      assert b[i].title == title;
      assert FindTitle(b, title).Some?;
      var j := FindTitle(b, title).value;
      assert a[j].title == title;
      assert !(j < i) && !(i < j);
  }

  /** Notes found by any other title are the same before and after. */
  lemma {:induction false} UpsertKeepsOtherTitles(notes: seq<Note>, title: string, content: string, other: string)
    requires other != title
    ensures var r := Upsert(notes, title, content);
      && FindTitle(r, other) == FindTitle(notes, other)
      && (FindTitle(notes, other).Some? ==> r[FindTitle(notes, other).value] == notes[FindTitle(notes, other).value])
  {
    var r := Upsert(notes, title, content);
    match FindTitle(notes, title)
    case Some(i) =>
      UpsertReplacesFirst(notes, title, content, i);
      assert forall k :: 0 <= k < |r| ==> r[k].title == notes[k].title;
      FindTitleByOccurrences(notes, r, other);
    case None =>
      UpsertAppends(notes, title, content);
      assert forall k :: 0 <= k < |notes| ==> r[k] == notes[k];
      FindTitleByOccurrences(notes, r, other);
  }

  /** Saving the same note twice leaves the list as saving it once; a second save overrides the first. */
  lemma {:induction false} UpsertLastWriteWins(notes: seq<Note>, title: string, c1: string, c2: string)
    ensures Upsert(Upsert(notes, title, c1), title, c2) == Upsert(notes, title, c2)
  {
    var r := Upsert(notes, title, c1);
    UpsertThenFind(notes, title, c1);
    match FindTitle(notes, title)
    case Some(i) =>
      UpsertReplacesFirst(notes, title, c1, i);
      UpsertReplacesFirst(r, title, c2, i);
      UpsertReplacesFirst(notes, title, c2, i);
    case None =>
      UpsertAppends(notes, title, c1);
      UpsertAppends(notes, title, c2);
      var n := |notes|;
      assert forall k :: 0 <= k < n ==> r[k].title != title;
      UpsertReplacesFirst(r, title, c2, n);
  }

  lemma UpsertIdempotent(notes: seq<Note>, title: string, content: string)
    ensures Upsert(Upsert(notes, title, content), title, content) == Upsert(notes, title, content)
  {
    UpsertLastWriteWins(notes, title, content, content);
  }

  /** `notesData`: the parsed notes.json whose `notes` list the handler updates in place. */
  class NotesData {
    var notes: seq<Note>

    /** `{ notes: [] }`, the value used when notes.json does not exist. */
    constructor Empty()
      ensures notes == []
    {
      notes := [];
    }

    /** The value `JSON.parse` gives for a notes.json holding `saved`. */
    constructor Parsed(saved: seq<Note>)
      ensures notes == saved
    {
      notes := saved;
    }

    /** Lines 43-48: replace the content of the first note with the title, or push a new note. */
    method Save(title: string, content: string)
      modifies this
      ensures notes == Upsert(old(notes), title, content)
    {
      var existing := FindTitle(notes, title);
      if existing.Some? {
        var i := existing.value;
        notes := notes[i := notes[i].(content := content)];
      } else {
        notes := notes + [Note(title, content)];
      }
    }
  }

  const SavedMessage: string := "Note saved successfully"

  /**
   * The `/save-note` handler: `file` is the content of notes.json, `None` when the file does not
   * exist. It answers `SavedMessage` and writes back the upserted list.
   */
  method SaveNote(file: Option<seq<Note>>, title: string, content: string) returns (written: seq<Note>, message: string)
    ensures written == Upsert(if file.Some? then file.value else [], title, content)
    ensures message == SavedMessage
  {
    var notesData := new NotesData.Empty();
    if file.Some? {
      notesData := new NotesData.Parsed(file.value);
    }
    notesData.Save(title, content);
    written := notesData.notes;
    message := SavedMessage;
  }

  /** The reply `runScripts` sends: an HTTP status and the `message` field. */
  datatype Reply = Reply(status: nat, message: string)

  const AllDoneMessage: string := "All scripts executed successfully"

  /** The scripts `/run-script` runs, in order. */
  const Pipeline: seq<string> := ["scrape_1.js", "features_2.js", "distro_3.js"]

  /** The index of the first script whose `exec` reports an error. */
  function FirstFailure(scripts: seq<string>, fails: string -> bool): (i: Option<nat>)
    ensures i.None? <==> forall k :: 0 <= k < |scripts| ==> !fails(scripts[k])
    ensures i.Some? ==>
      (i.value < |scripts| && fails(scripts[i.value]) && forall k :: 0 <= k < i.value ==> !fails(scripts[k]))
    decreases |scripts|
  {
    if scripts == [] then None
    else if fails(scripts[0]) then Some(0)
    else
      assert forall k :: 1 <= k < |scripts| ==> scripts[1..][k - 1] == scripts[k];
      match FirstFailure(scripts[1..], fails)
      case None => None
      case Some(j) => Some(j + 1)
  }

  /** The scripts started, in order: all of them, or up to and including the first that fails. */
  function Started(scripts: seq<string>, fails: string -> bool): seq<string> {
    match FirstFailure(scripts, fails)
    case None => scripts
    case Some(i) => scripts[..i + 1]
  }

  /** The reply: 500 naming the first failing script, or the success message after the last one. */
  function Outcome(scripts: seq<string>, fails: string -> bool): Reply {
    match FirstFailure(scripts, fails)
    case None => Reply(200, AllDoneMessage)
    case Some(i) => Reply(500, "Error running " + scripts[i])
  }

  /**
   * The scripts run strictly in list order and never past a failure: every script started but
   * the last succeeded; success is answered exactly when every script ran and none failed.
   */
  lemma StartedInOrder(scripts: seq<string>, fails: string -> bool)
    ensures var s := Started(scripts, fails);
      && s <= scripts
      && (forall k :: 0 <= k < |s| - 1 ==> !fails(s[k]))
      && (Outcome(scripts, fails).status == 200 <==> s == scripts && forall k :: 0 <= k < |s| ==> !fails(s[k]))
      && (Outcome(scripts, fails).status == 500 <==> s != [] && fails(s[|s| - 1]))
  {
    var s := Started(scripts, fails);
    match FirstFailure(scripts, fails)
    case None =>
    case Some(i) =>
      assert s[|s| - 1] == scripts[i];
      assert forall k :: 0 <= k < |s| - 1 ==> s[k] == scripts[k];
  }

  /** A failing first script stops the pipeline before the features and distribution steps. */
  lemma ScrapeFailureStopsPipeline(fails: string -> bool)
    requires fails("scrape_1.js")
    ensures Started(Pipeline, fails) == ["scrape_1.js"]
    ensures Outcome(Pipeline, fails) == Reply(500, "Error running scrape_1.js")
  {
  }

  /** `runScripts`: `next()` re-entered from each callback is a loop over `index`. */
  method RunScripts(scripts: seq<string>, fails: string -> bool) returns (started: seq<string>, reply: Reply)
    ensures started == Started(scripts, fails)
    ensures reply == Outcome(scripts, fails)
  {
    var index := 0;
    started := [];
    while index < |scripts|
      invariant 0 <= index <= |scripts|
      invariant started == scripts[..index]
      invariant forall k :: 0 <= k < index ==> !fails(scripts[k])
    {
      var script := scripts[index];
      started := started + [script];
      if fails(script) {
        reply := Reply(500, "Error running " + script);
        return;
      }
      index := index + 1;
    }
    reply := Reply(200, AllDoneMessage);
  }

  /** The `/run-script` handler. */
  method RunScript(fails: string -> bool) returns (started: seq<string>, reply: Reply)
    ensures started == Started(Pipeline, fails) && reply == Outcome(Pipeline, fails)
  {
    started, reply := RunScripts(Pipeline, fails);
  }
}
