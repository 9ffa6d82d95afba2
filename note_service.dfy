/** The note service: turning a query snapshot of the `notes` collection into
    a notes object keyed by document id, and routing the live listener's data
    and errors to the subscriber's callbacks. The document store itself is not
    modelled: a snapshot is the sequence of documents it enumerates, and the
    listener is a finite sequence of events. */
module NoteService {
  import opened JsValues

  /** A query document: its id and the fields `doc.data()` returns. */
  datatype Doc = Doc(id: string, data: Object)

  /** The duck-typed snapshot argument. `Nullish` is `null` or `undefined`.
      Otherwise `forEach` is `Some(entries)` when `typeof snapshot.forEach === 'function'`
      (it enumerates `entries`), and `docs` is `Some(entries)` when
      `Array.isArray(snapshot.docs)`. */
  datatype Snapshot = Nullish | Snap(forEach: Option<seq<Doc>>, docs: Option<seq<Doc>>)

  /** The exception raised by reading `forEach` off `null` or `undefined`. */
  datatype Failure = TypeError

  /** The notes object: document id to note object. */
  type Notes = map<string, Object>

  /** The set of document ids among `entries`. */
  function Ids(entries: seq<Doc>): set<string>
  {
    set d | d in entries :: d.id
  }

  /** `{ id: doc.id, ...data }`: the document id first, then every stored
      field, so a stored `id` field replaces the document id. No field is
      checked or required. */
  function Spread(doc: Doc): (note: Object)
    ensures note.Keys == doc.data.Keys + {"id"}
    ensures note["id"] == if "id" in doc.data then doc.data["id"] else Str(doc.id)
    ensures forall field :: field in doc.data ==> note[field] == doc.data[field]
  {
    map["id" := Str(doc.id)] + doc.data
  }

  /** The notes object after the entries have been written in order,
      each under its own document id. */
  function NotesFrom(entries: seq<Doc>): Notes
    decreases |entries|
  {
    if entries == [] then map[]
    else
      var last := entries[|entries| - 1];
      NotesFrom(entries[..|entries| - 1])[last.id := Spread(last)]
  }

  /** The documents `transformSnapshot` iterates: those of `forEach` when it is
      a function, else those of `docs` when it is an array, else none. */
  function Enumerated(snapshot: Snapshot): seq<Doc>
    requires snapshot.Snap?
  {
    if snapshot.forEach.Some? then snapshot.forEach.value
    else if snapshot.docs.Some? then snapshot.docs.value
    else []
  }

  /** What `transformSnapshot` returns or throws: it throws exactly on a
      nullish snapshot. */
  function Reconcile(snapshot: Snapshot): (result: Result<Notes, Failure>)
    ensures result.Err? <==> snapshot.Nullish?
  {
    if snapshot.Nullish? then Err(TypeError) else Ok(NotesFrom(Enumerated(snapshot)))
  }

  /** The `forEach` callback, applied to every entry in order. */
  method FillNotes(entries: seq<Doc>) returns (notes: Notes)
    ensures notes == NotesFrom(entries)
  {
    notes := map[];
    var i := 0;
    while i < |entries|
      invariant 0 <= i <= |entries|
      invariant notes == NotesFrom(entries[..i])
    {
      var doc := entries[i];
      notes := notes[doc.id := Spread(doc)];
      i := i + 1;
      assert entries[..i][..i - 1] == entries[..i - 1];
    }
    assert entries[..i] == entries;
  }

  /** `transformSnapshot`: start from an empty object and fill it from the
      `forEach` enumeration, or from the `docs` array when there is no
      `forEach`; a nullish snapshot throws on the unguarded `forEach` read. */
  method TransformSnapshot(snapshot: Snapshot) returns (result: Result<Notes, Failure>)
    ensures result == Reconcile(snapshot)
  {
    if snapshot.Nullish? {
      return Err(TypeError);
    }
    var notes: Notes := map[];
    if snapshot.forEach.Some? {
      notes := FillNotes(snapshot.forEach.value);
    } else if snapshot.docs.Some? {
      notes := FillNotes(snapshot.docs.value);
    }
    return Ok(notes);
  }

  /** The keys of the notes object are exactly the ids of the documents written. */
  lemma {:induction false} NotesFromKeys(entries: seq<Doc>)
    ensures NotesFrom(entries).Keys == Ids(entries)
  {
    if entries != [] {
      var n := |entries| - 1;
      NotesFromKeys(entries[..n]);
      assert entries == entries[..n] + [entries[n]];
      assert Ids(entries) == Ids(entries[..n]) + {entries[n].id};
    }
  }

  /** The entry under an id is the spread of the last document carrying that id:
      a later document with the same id overwrites an earlier one. */
  lemma {:induction false} LastDocumentWins(entries: seq<Doc>, i: nat)
    requires i < |entries|
    requires forall j :: i < j < |entries| ==> entries[j].id != entries[i].id
    ensures entries[i].id in NotesFrom(entries)
    ensures NotesFrom(entries)[entries[i].id] == Spread(entries[i])
  {
    var n := |entries| - 1;
    if i < n {
      LastDocumentWins(entries[..n], i);
    }
  }

  /** Every note's `id` is its key, unless the last document with that key
      stores an `id` field of its own, which then wins. */
  lemma {:induction false} NoteIdField(entries: seq<Doc>, i: nat)
    requires i < |entries|
    requires forall j :: i < j < |entries| ==> entries[j].id != entries[i].id
    ensures entries[i].id in NotesFrom(entries) && "id" in NotesFrom(entries)[entries[i].id]
    ensures NotesFrom(entries)[entries[i].id]["id"]
         == if "id" in entries[i].data then entries[i].data["id"] else Str(entries[i].id)
  {
    LastDocumentWins(entries, i);
  }

  /** A snapshot with a `forEach` function is read through it and its `docs`
      are ignored; `docs` is read only when `forEach` is absent; a non-null
      snapshot with neither yields the empty object; a nullish one throws. */
  lemma ShapeSelection(entries: seq<Doc>, docs: Option<seq<Doc>>)
    ensures Reconcile(Snap(Some(entries), docs)) == Ok(NotesFrom(entries))
    ensures Reconcile(Snap(None, Some(entries))) == Ok(NotesFrom(entries))
    ensures Reconcile(Snap(None, None)) == Ok(map[])
    ensures Reconcile(Nullish) == Err(TypeError)
  {
  }

  /** The result of any non-null snapshot has exactly the enumerated document ids as keys. */
  lemma ReconcileKeys(snapshot: Snapshot)
    requires snapshot.Snap?
    ensures Reconcile(snapshot).Ok?
    ensures Reconcile(snapshot).value.Keys == Ids(Enumerated(snapshot))
  {
    NotesFromKeys(Enumerated(snapshot));
  }

  /** The documents `saveNote` leaves in the store for `notes`, enumerated in `order`:
      each note is stored whole, its `id` field included, under its own id. */
  function Stored(notes: Notes, order: seq<string>): (docs: seq<Doc>)
    requires Enumerates(order, notes)
  {
    seq(|order|, i requires 0 <= i < |order| => Doc(order[i], notes[order[i]]))
  }

  /** Every note carries its own key as its `id` field, as notes written by the editor do. */
  ghost predicate SelfIdentified(notes: Notes)
  {
    forall k :: k in notes ==> "id" in notes[k] && notes[k]["id"] == Str(k)
  }

  /** `order` lists every key of `notes` exactly once. */
  ghost predicate Enumerates(order: seq<string>, notes: Notes)
  {
    && (forall i, j :: 0 <= i < j < |order| ==> order[i] != order[j])
    && (forall i :: 0 <= i < |order| ==> order[i] in notes)
    && |order| == |notes|
  }

  /** A note that already carries its own id as `id` is unchanged by the spread. */
  lemma SpreadOfSelfIdentified(id: string, note: Object)
    requires "id" in note && note["id"] == Str(id)
    ensures Spread(Doc(id, note)) == note
  {
  }

  /** Without its last key, the enumeration lists the other notes, and they are
      stored as the same documents. */
  lemma StoredPrefix(notes: Notes, order: seq<string>)
    requires order != [] && Enumerates(order, notes) && SelfIdentified(notes)
    ensures Enumerates(order[..|order| - 1], notes - {order[|order| - 1]})
    ensures SelfIdentified(notes - {order[|order| - 1]})
    ensures Stored(notes, order)[..|order| - 1]
         == Stored(notes - {order[|order| - 1]}, order[..|order| - 1])
  {
  }

  /** Writing the last stored document back over the rest of the notes gives all of them. */
  lemma StoredLast(notes: Notes, order: seq<string>)
    requires order != [] && Enumerates(order, notes) && SelfIdentified(notes)
    requires NotesFrom(Stored(notes, order)[..|order| - 1]) == notes - {order[|order| - 1]}
    ensures NotesFrom(Stored(notes, order)) == notes
  {
    var n := |order| - 1;
    var last := order[n];
    SpreadOfSelfIdentified(last, notes[last]);
    assert Stored(notes, order)[n] == Doc(last, notes[last]);
    assert (notes - {last})[last := notes[last]] == notes;
  }

  /** Round trip: reading back the stored documents of a notes object whose
      notes carry their own ids gives that notes object, whatever the order of
      enumeration. */
  lemma {:induction false} StoredRoundTrip(notes: Notes, order: seq<string>)
    requires Enumerates(order, notes) && SelfIdentified(notes)
    ensures NotesFrom(Stored(notes, order)) == notes
  {
    if order == [] {
      assert notes == map[];
    } else {
      var n := |order| - 1;
      StoredPrefix(notes, order);
      StoredRoundTrip(notes - {order[n]}, order[..n]);
      StoredLast(notes, order);
    }
  }

  /** What the snapshot listener delivers: a snapshot, or a listener error. */
  datatype FeedEvent = SnapshotEvent(snapshot: Snapshot) | ListenerError(message: string)

  /** What `subscribeToNotes`'s callbacks do with one event. */
  datatype Reaction =
    | NotesChanged(notes: Notes)       // onNotesChange(transformSnapshot(snapshot))
    | ErrorForwarded(message: string)  // onError(error), when onError was supplied
    | ErrorLogged                      // the error is only logged
    | CallbackThrew(failure: Failure)  // transformSnapshot threw inside the listener

  /** The two listener callbacks of `subscribeToNotes` for one event. */
  function Route(event: FeedEvent, hasOnError: bool): (reaction: Reaction)
    ensures reaction.NotesChanged? <==> event.SnapshotEvent? && event.snapshot.Snap?
    ensures reaction.NotesChanged? ==> reaction.notes == NotesFrom(Enumerated(event.snapshot))
    ensures reaction.CallbackThrew? <==> event.SnapshotEvent? && event.snapshot.Nullish?
    ensures reaction.ErrorForwarded? <==> event.ListenerError? && hasOnError
    ensures reaction.ErrorForwarded? ==> reaction.message == event.message
    ensures reaction.ErrorLogged? <==> event.ListenerError? && !hasOnError
  {
    match event
    case SnapshotEvent(snapshot) =>
      (match Reconcile(snapshot)
       case Ok(notes) => NotesChanged(notes)
       case Err(failure) => CallbackThrew(failure))
    case ListenerError(message) =>
      if hasOnError then ErrorForwarded(message) else ErrorLogged
  }

  /** The reactions to a sequence of listener events, one per event, in order. */
  function Dispatch(events: seq<FeedEvent>, hasOnError: bool): (reactions: seq<Reaction>)
    ensures |reactions| == |events|
    ensures forall i :: 0 <= i < |events| ==> reactions[i] == Route(events[i], hasOnError)
  {
    if events == [] then [] else [Route(events[0], hasOnError)] + Dispatch(events[1..], hasOnError)
  }

  /** The values handed to `onNotesChange`, in order. */
  function NotesHandedOn(reactions: seq<Reaction>): seq<Notes>
  {
    if reactions == [] then []
    else if reactions[0].NotesChanged? then [reactions[0].notes] + NotesHandedOn(reactions[1..])
    else NotesHandedOn(reactions[1..])
  }

  /** The reconciliation of every non-null snapshot among the events, in order. */
  function ReconciledSnapshots(events: seq<FeedEvent>): seq<Notes>
  {
    if events == [] then []
    else if events[0].SnapshotEvent? && events[0].snapshot.Snap? then
      [NotesFrom(Enumerated(events[0].snapshot))] + ReconciledSnapshots(events[1..])
    else ReconciledSnapshots(events[1..])
  }

  /** The messages handed to `onError`, in order. */
  function ErrorsHandedOn(reactions: seq<Reaction>): seq<string>
  {
    if reactions == [] then []
    else if reactions[0].ErrorForwarded? then [reactions[0].message] + ErrorsHandedOn(reactions[1..])
    else ErrorsHandedOn(reactions[1..])
  }

  /** The messages of the listener errors among the events, in order. */
  function ListenerErrors(events: seq<FeedEvent>): seq<string>
  {
    if events == [] then []
    else if events[0].ListenerError? then [events[0].message] + ListenerErrors(events[1..])
    else ListenerErrors(events[1..])
  }

  /** Every value handed to `onNotesChange` is the transform of a snapshot, and
      every non-null snapshot produces exactly one such value, in order. */
  lemma {:induction false} NotesChangeIsTransform(events: seq<FeedEvent>, hasOnError: bool)
    ensures NotesHandedOn(Dispatch(events, hasOnError)) == ReconciledSnapshots(events)
  {
    if events != [] {
      NotesChangeIsTransform(events[1..], hasOnError);
    }
  }

  /** Listener errors reach `onError` exactly when one was supplied, each once and in order. */
  lemma {:induction false} ErrorsReachOnErrorIffSupplied(events: seq<FeedEvent>, hasOnError: bool)
    ensures ErrorsHandedOn(Dispatch(events, hasOnError)) == if hasOnError then ListenerErrors(events) else []
  {
    if events != [] {
      ErrorsReachOnErrorIffSupplied(events[1..], hasOnError);
    }
  }
}
