/** The note editor component: its state (`note`, `isSaving`, `error`), the
    props it reads (`initialNote`, whether `onSave` was given), and the
    transitions of its change and submit handlers. The uuid generator, the
    clock and the outcome of `saveNote` are parameters. */
module NoteEditor {
  import opened JsValues

  /** The message shown when saving fails. */
  const SaveFailed: string := "Failed to save note"

  /** A new note: a fresh id, empty title and content, stamped now. It cannot
      be submitted until both text fields are typed in, so the reset after a
      successful save also blocks an immediate second save. */
  function BlankNote(freshId: string, now: int): (blank: Object)
    ensures blank.Keys == {"id", "title", "content", "lastUpdated"}
    ensures blank["id"] == Str(freshId) && blank["lastUpdated"] == Num(now)
    ensures blank["title"] == Str("") && blank["content"] == Str("")
    ensures !Submittable(blank)
  {
    map["id" := Str(freshId), "title" := Str(""), "content" := Str(""), "lastUpdated" := Num(now)]
  }

  /** `{ ...note, [name]: value, lastUpdated: now }`: the named field takes the
      typed value, the timestamp is renewed, every other field is kept. */
  function Edited(note: Object, name: string, value: string, now: int): (edited: Object)
    ensures edited.Keys == note.Keys + {name, "lastUpdated"}
    ensures edited["lastUpdated"] == Num(now)
    ensures name != "lastUpdated" ==> edited[name] == Str(value)
    ensures forall field :: field in note && field != name && field != "lastUpdated" ==>
              edited[field] == note[field]
  {
    note[name := Str(value)]["lastUpdated" := Num(now)]
  }

  /** The submit guard: both `note.title` and `note.content` are truthy, so a
      missing field or an empty text blocks the submit. */
  predicate Submittable(note: Object)
    ensures Submittable(note) ==> "title" in note && "content" in note
    ensures Submittable(note) ==> note["title"] != Str("") && note["content"] != Str("")
  {
    Truthy(Get(Obj(note), "title")) && Truthy(Get(Obj(note), "content"))
  }

  /** Editing the title or the content keeps the note's id and the other text field. */
  lemma EditKeepsIdAndOtherField(note: Object, name: string, value: string, now: int)
    requires name == "title" || name == "content"
    requires "id" in note
    ensures "id" in Edited(note, name, value, now)
    ensures Edited(note, name, value, now)["id"] == note["id"]
    ensures Edited(note, name, value, now)[name] == Str(value)
    ensures var other := if name == "title" then "content" else "title";
            other in note ==> Edited(note, name, value, now)[other] == note[other]
  {
    assert "id" != "lastUpdated" && "title" != "lastUpdated" && "content" != "lastUpdated";
  }

  /** Typing a non-empty title and a non-empty content into any note makes it submittable. */
  lemma TypedNoteSubmittable(note: Object, title: string, content: string, t1: int, t2: int)
    requires title != "" && content != ""
    ensures Submittable(Edited(Edited(note, "title", title, t1), "content", content, t2))
  {
    var once := Edited(note, "title", title, t1);
    var twice := Edited(once, "content", content, t2);
    assert "title" != "lastUpdated" && "content" != "lastUpdated" && "title" != "content";
    assert twice["title"] == Str(title);
    assert twice["content"] == Str(content);
  }

  /** The editor's state and props. */
  class Editor {
    var note: Object
    var isSaving: bool
    var error: Option<string>
    var initialNote: Option<Object>
    var hasOnSave: bool

    /** The initial state: `initialNote` when given, else a blank note. */
    constructor (initialNote: Option<Object>, hasOnSave: bool, freshId: string, now: int)
      ensures note == if initialNote.Some? then initialNote.value else BlankNote(freshId, now)
      ensures !isSaving && error == None
      ensures this.initialNote == initialNote && this.hasOnSave == hasOnSave
    {
      note := if initialNote.Some? then initialNote.value else BlankNote(freshId, now);
      isSaving, error := false, None;
      this.initialNote, this.hasOnSave := initialNote, hasOnSave;
    }

    /** The effect on a new `initialNote` prop: a given note replaces the
        current one, an absent one leaves it alone. */
    method SyncInitialNote(newInitial: Option<Object>)
      modifies this
      ensures initialNote == newInitial
      ensures note == if newInitial.Some? then newInitial.value else old(note)
      ensures isSaving == old(isSaving) && error == old(error) && hasOnSave == old(hasOnSave)
    {
      initialNote := newInitial;
      if newInitial.Some? {
        note := newInitial.value;
      }
    }

    /** `handleChange`: the input named `name` now holds `value`. */
    method HandleChange(name: string, value: string, now: int)
      modifies this`note
      ensures note == Edited(old(note), name, value, now)
    {
      note := Edited(note, name, value, now);
    }

    /** `handleSubmit` with the outcomes of `saveNote` and of `onSave` given.
        Returns the note passed to `saveNote` and the note passed to `onSave`,
        if any. A throw from either lands in the same catch: the error is set
        and a new note is not reset. */
    method HandleSubmit(saveSucceeds: bool, onSaveThrows: bool, freshId: string, now: int)
      returns (saved: Option<Object>, notified: Option<Object>)
      modifies this`note, this`isSaving, this`error
      ensures !Submittable(old(note)) ==>
                saved == None && notified == None &&
                note == old(note) && isSaving == old(isSaving) && error == old(error)
      ensures Submittable(old(note)) ==>
                var completed := saveSucceeds && !(hasOnSave && onSaveThrows);
                saved == Some(old(note)) && !isSaving &&
                notified == (if saveSucceeds && hasOnSave then Some(old(note)) else None) &&
                error == (if completed then None else Some(SaveFailed)) &&
                note == (if completed && initialNote.None? then BlankNote(freshId, now) else old(note))
    {
      saved, notified := None, None;
      if !Submittable(note) {
        return;
      }
      isSaving := true;
      error := None;
      saved := Some(note);
      if !saveSucceeds {
        error := Some(SaveFailed);
      } else if hasOnSave && onSaveThrows {
        notified := Some(note);
        error := Some(SaveFailed);
      } else {
        if hasOnSave {
          notified := Some(note);
        }
        if initialNote.None? {
          note := BlankNote(freshId, now);
        }
      }
      isSaving := false;
    }
  }

  /** A new note typed in and submitted twice is saved once: the first save
      succeeds and resets the editor, so the second submit is refused. */
  method SubmitTwiceSavesOnce(title: string, content: string, id1: string, id2: string, id3: string)
    returns (first: Option<Object>, second: Option<Object>)
    requires title != "" && content != ""
    ensures first.Some? && Get(Obj(first.value), "title") == Str(title)
    ensures first.Some? && Get(Obj(first.value), "content") == Str(content)
    ensures second == None
  {
    var editor := new Editor(None, true, id1, 0);
    editor.HandleChange("title", title, 1);
    editor.HandleChange("content", content, 2);
    TypedNoteSubmittable(BlankNote(id1, 0), title, content, 1, 2);
    var notified;
    first, notified := editor.HandleSubmit(true, false, id2, 3);
    assert "title" != "lastUpdated" && "content" != "lastUpdated" && "title" != "content";
    second, notified := editor.HandleSubmit(true, false, id3, 4);
  }

  /** Saving an existing note hands it to `onSave` unchanged once `saveNote`
      succeeds; a failed save reports the error without notifying, and an
      `onSave` that throws reports the same error after being called. */
  method SaveExistingNote(existing: Object, saveSucceeds: bool, onSaveThrows: bool)
    returns (notified: Option<Object>, message: Option<string>)
    requires Submittable(existing)
    ensures saveSucceeds ==> notified == Some(existing)
    ensures !saveSucceeds ==> notified == None
    ensures message == if saveSucceeds && !onSaveThrows then None else Some(SaveFailed)
  {
    var editor := new Editor(Some(existing), true, "unused", 0);
    var saved;
    saved, notified := editor.HandleSubmit(saveSucceeds, onSaveThrows, "unused", 1);
    message := editor.error;
  }
}
