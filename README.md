# Note client core, modelled in Dafny

This project models the logic of a small note-taking client whose notes live
in a remote document collection called `notes`. Four parts are modelled:

- **Note service** (`note_service.dfy`, module `NoteService`).
  `transformSnapshot` turns a query snapshot into a notes object keyed by
  document id. `subscribeToNotes` routes each listener event either to
  `onNotesChange` or to the optional `onError`.
- **Note list** (`note_list.dfy`, module `NoteList`).
  - Its state holds `notes`, `loading` and `error`. The subscription callbacks
    update it.
  - It renders a loading, error, empty or list screen.
  - The display pipeline keeps the notes that have an id and sorts them newest
    first.
- **Note editor** (`note_editor.dfy`, module `NoteEditor`).
  - Its state holds `note`, `isSaving` and `error`, plus the `initialNote`
    prop.
  - The model covers the change handler, the submit handler with its guard,
    the save outcome and the reset of a new note, and the effect that syncs
    `initialNote`.
- **Relative time** (`date_utils.dfy`, module `DateUtils`). `getTimeAgo`
  buckets the whole seconds elapsed into seconds, minutes, hours or days.

`js_values.dfy` (module `JsValues`) gives the shared JavaScript vocabulary:

- duck-typed values (`Value`);
- plain objects as `map<string, Value>`;
- truthiness;
- property reads.

Notes are kept as plain objects rather than typed records. This lets the model
say what the code does with data it does not check. A stored `id` field wins
over the document id. A document with no `title` still becomes a note.

Inputs that the program gets from outside are parameters:

- the store's snapshots and listener errors;
- the result of `saveNote` (a boolean outcome);
- `uuidv4()` (a fresh id argument);
- `Date.now()` (a `now` argument).

Four facts about the code shape the model:

- A stored `id` field wins over the document id. The spread of the stored
  data comes after `id: doc.id` (src/services/noteService.ts:59-62), so it
  overwrites it (`NoteService.Spread`, `NoteService.NoteIdField`).
- A null or undefined snapshot throws. `snapshot.forEach` is read with no
  null check (src/services/noteService.ts:56), so `NoteService.Reconcile`
  returns `Err(TypeError)` for it. Only two snapshot shapes are read: a
  `forEach` function, or else a `docs` array.
- `subscribeToNotes` keeps no subscription state of its own
  (src/services/noteService.ts:83-104). It returns the store's unsubscribe
  handle, so nothing of that kind is modelled.
- The empty-list message tests the unfiltered `notes`
  (src/components/NoteList.tsx:46). A list whose entries all lack an id
  renders the list screen with no cards (`NoteList.NoteListState.Render`).

## Model

| member | source | states |
|---|---|---|
| `NoteService.Spread` | src/services/noteService.ts:59-62 | a note has every stored field plus `id`; its `id` is the stored `id` field when there is one, otherwise the document id; every stored field is kept unchecked |
| `NoteService.NotesFrom` | src/services/noteService.ts:57-63 | the notes object after writing each entry's spread under its id, in order (no contract of its own; its key set is `NoteService.NotesFromKeys`, its values `NoteService.LastDocumentWins`) |
| `NoteService.Reconcile` | src/services/noteService.ts:53-75 | `transformSnapshot` throws exactly when the snapshot is nullish |
| `NoteService.FillNotes` | src/services/noteService.ts:57-63 | the loop over the entries yields `NotesFrom(entries)`, each entry's note written under its id in order |
| `NoteService.TransformSnapshot` | src/services/noteService.ts:53-75 | the method returns `Reconcile(snapshot)`: it throws on a nullish snapshot, reads `forEach` first and `docs` second, and yields the empty object otherwise |
| `NoteService.NotesFromKeys` | src/services/noteService.ts:56-63 | the key set of the result is exactly the set of document ids enumerated, whatever fields the documents carry (no validation) |
| `NoteService.LastDocumentWins` | src/services/noteService.ts:59 | the note under an id is the spread of the last document with that id; later duplicates overwrite earlier ones |
| `NoteService.NoteIdField` | src/services/noteService.ts:59-62 | a note's `id` is its key unless the winning document stores its own `id`, which then wins |
| `NoteService.ShapeSelection` | src/services/noteService.ts:54-74 | a `forEach` function makes `docs` irrelevant; `docs` is read only without `forEach`; a non-null snapshot with neither gives `{}`; a nullish one throws |
| `NoteService.ReconcileKeys` | src/services/noteService.ts:53-75 | any non-null snapshot succeeds, with exactly the enumerated ids as keys |
| `NoteService.StoredRoundTrip` | src/services/noteService.ts:56-63 | reading back notes stored whole under their own ids, in any enumeration order, gives the same notes object |
| `NoteService.Route` | src/services/noteService.ts:89-100 | a non-null snapshot calls `onNotesChange` with its transform; a nullish one throws inside the listener; a listener error reaches `onError` with its message exactly when `onError` was supplied, and is only logged otherwise |
| `NoteService.Dispatch` | src/services/noteService.ts:89-100 | a sequence of listener events gets one reaction each, in order, each the `Route` of that event |
| `NoteService.NotesChangeIsTransform` | src/services/noteService.ts:89-94 | the values handed to `onNotesChange` are exactly the transforms of the non-null snapshots, one each, in order |
| `NoteService.ErrorsReachOnErrorIffSupplied` | src/services/noteService.ts:95-100 | listener errors reach `onError` each once and in order when it was supplied, and never otherwise |
| `NoteList.ObjectValues` | src/components/NoteList.tsx:23 | `Object.values` returns each value of the object once per key (as a multiset), with one entry per key |
| `NoteList.NoteListState.constructor` | src/components/NoteList.tsx:12-14 | the list starts with no notes, loading, and no error |
| `NoteList.NoteListState.OnNotes` | src/components/NoteList.tsx:19-28 | an array is stored as is, a non-null object as its values, anything else as `[]`; loading ends and the error is untouched |
| `NoteList.NoteListState.OnLoadFailed` | src/components/NoteList.tsx:30-40 | an error callback or a synchronous throw sets "Failed to load notes", ends loading and keeps the notes |
| `NoteList.NoteListState.Render` | src/components/NoteList.tsx:44-58 | each screen is stated both ways: the loading message exactly while loading; the error exactly when not loading with a non-empty error; the empty message exactly when neither and the stored list is empty; the list, of `Displayed(notes)`, exactly when neither and the list is not empty |
| `NoteList.DeliveryEndsLoading` | src/components/NoteList.tsx:19-58 | after a data delivery the loading screen is gone; an empty array shows the empty message, a non-empty one the list of its displayed notes |
| `NoteList.FailureShowsError` | src/components/NoteList.tsx:30-47 | after a load failure the error screen shows, whatever was delivered before |
| `NoteList.KeepIdentified` | src/components/NoteList.tsx:54 | `filter((note) => note && note.id)`: every kept entry is truthy with a truthy `id`, and none is added |
| `NoteList.KeepIdentifiedCounts` | src/components/NoteList.tsx:54 | the filter keeps every entry that is truthy with a truthy `id`, as often as it occurs, and nothing else |
| `NoteList.Insert` | src/components/NoteList.tsx:55 | one step of the newest-first sort: the result is one entry longer; what it adds and its order are `NoteList.InsertSpec` |
| `NoteList.SortNewestFirst` | src/components/NoteList.tsx:55 | `sort((a, b) => b.lastUpdated - a.lastUpdated)` as an insertion sort: the result is as long as the input; that it is a newest-first permutation is `NoteList.SortNewestFirstSpec` |
| `NoteList.InsertSpec` | src/components/NoteList.tsx:55 | inserting into a newest-first sequence adds exactly that note and keeps the order |
| `NoteList.SortNewestFirstSpec` | src/components/NoteList.tsx:55 | the sort returns a newest-first permutation of its input |
| `NoteList.Displayed` | src/components/NoteList.tsx:53-55 | the shown notes are all truthy with a truthy `id` and are a permutation of the filtered notes; when every stamp is a number, `null` or a boolean, they are ordered newest first by the number the comparator's subtraction makes of it (`NoteList.StampNumber`) |
| `NoteList.StampNumber` | src/components/NoteList.tsx:55 | the number `b.lastUpdated - a.lastUpdated` makes of a stamp without parsing text: a number is itself, `null` is 0, `false` 0 and `true` 1 (no contract of its own; used by `NoteList.Displayed`) |
| `NoteList.DisplayedOrderedByLastUpdated` | src/components/NoteList.tsx:54-55 | when every note that has an id carries a numeric `lastUpdated`, the display is non-increasing in it |
| `NoteList.DisplayOrderExample` | src/components/NoteList.tsx:55 | notes stamped 100, 300, 200 are shown as 300, 200, 100 |
| `NoteEditor.BlankNote` | src/components/NoteEditor.tsx:16-21 | a new note has exactly `id`, `title`, `content` and `lastUpdated`: the fresh id, empty title and content, and the current time; it cannot pass the submit guard |
| `NoteEditor.Submittable` | src/components/NoteEditor.tsx:44 | the guard passes only when both `title` and `content` are present and not the empty string |
| `NoteEditor.Edited` | src/components/NoteEditor.tsx:34-40 | a change sets the named field to the typed text and `lastUpdated` to now, and keeps every other field |
| `NoteEditor.EditKeepsIdAndOtherField` | src/components/NoteEditor.tsx:34-40 | editing the title or the content keeps the `id` and the other text field |
| `NoteEditor.TypedNoteSubmittable` | src/components/NoteEditor.tsx:44 | once a non-empty title and a non-empty content are typed, the guard passes |
| `NoteEditor.Editor.constructor` | src/components/NoteEditor.tsx:14-26 | the note is `initialNote` when given, otherwise a fresh id with empty title and content stamped now; not saving, no error |
| `NoteEditor.Editor.SyncInitialNote` | src/components/NoteEditor.tsx:28-32 | a given `initialNote` replaces the note; an absent one leaves it alone |
| `NoteEditor.Editor.HandleChange` | src/components/NoteEditor.tsx:34-40 | the note becomes `Edited(note, name, value, now)`, and nothing else changes |
| `NoteEditor.Editor.HandleSubmit` | src/components/NoteEditor.tsx:42-64 | with an empty title or content: no save, no `onSave`, no state change. Otherwise the note is saved. When `saveNote` succeeds, `onSave` (if given) gets exactly that note. When both succeed, the error stays clear and a new note resets to a blank one. When `saveNote` fails, `onSave` is not called; when it or `onSave` throws, the error is "Failed to save note" and the note is kept. `isSaving` is false at the end |
| `NoteEditor.SubmitTwiceSavesOnce` | src/components/NoteEditor.tsx:42-64 | a new note submitted twice is saved once, because the reset blocks the second submit |
| `NoteEditor.SaveExistingNote` | src/components/NoteEditor.tsx:42-64 | an existing note is passed to `onSave` unchanged once `saveNote` succeeds; a failed save skips `onSave`; a failed save or a throwing `onSave` shows the error |
| `DateUtils.ElapsedSeconds` | src/utils/dateUtils.ts:13 | `diff` is the floor of the elapsed milliseconds over 1000, also for future timestamps |
| `DateUtils.IntToString` | src/utils/dateUtils.ts:15 | the template literal of an integer: a leading minus exactly for negatives, then decimal digits |
| `DateUtils.NatDigitsRoundTrip` | src/utils/dateUtils.ts:15 | the decimal digits of a count read back as that count |
| `DateUtils.IntToStringRoundTrip` | src/utils/dateUtils.ts:15 | an integer, negative ones included, is written so that it parses back to itself |
| `DateUtils.Bucket` | src/utils/dateUtils.ts:15-21 | exactly one bucket applies: seconds below 60, minutes in [1,59] below 3600, hours in [1,23] below 86400, days ≥ 1 otherwise, each count the floor of `diff` over its unit |
| `DateUtils.NestedFloors` | src/utils/dateUtils.ts:16-20 | flooring by 60 twice is flooring by 3600, and then by 24 is flooring by 86400 |
| `DateUtils.GetTimeAgo` | src/utils/dateUtils.ts:11-22 | `getTimeAgo` with the nested floors as written equals the label of `Bucket(diff)`, whose thresholds are in seconds |
| `DateUtils.BucketMonotone` | src/utils/dateUtils.ts:15-21 | a longer elapsed time never falls in an earlier bucket, and within a bucket the count never decreases |
| `DateUtils.LastSecondLabel` | src/utils/dateUtils.ts:15 | 59 s gives "59 sec ago" |
| `DateUtils.FirstMinuteAndHourLabels` | src/utils/dateUtils.ts:16-19 | 60 s gives "1 min ago", 3600 s "1 hr ago" |
| `DateUtils.FirstDaysLabels` | src/utils/dateUtils.ts:20-21 | 86400 s gives "1 day ago", 172800 s "2 days ago" |
| `DateUtils.FutureTimestampLabel` | src/utils/dateUtils.ts:13-15 | a timestamp 10.5 s in the future gives "-11 sec ago" |

## Left out

- `saveNote` and `deleteNote` (src/services/noteService.ts:23-46) are not modelled. They only hand a note or an id to the store and rethrow its errors. The editor takes the outcome of `saveNote` as a boolean. `NoteService.Stored` describes the documents a save leaves behind (the whole note, `id` included).
- The store's listener, its unsubscribe handle and the effect cleanup (src/components/NoteList.tsx:36) are not modelled. The code keeps no subscription state of its own. The listener is a finite sequence of events.
- `NoteService.Route`: what the store does after `transformSnapshot` throws inside the listener is not modelled. The model only records that `onNotesChange` is not called.
- `NoteList.Displayed` promises an order only when every kept note's `lastUpdated` is a number, `null` or a boolean. For those the model's sort key is the number the comparator's subtraction makes of the stamp, so notes with different keys appear in the program's order. The model keys every other stamp as 0. That is wrong for a numeric string: the subtraction parses it (`"300"` sorts before `"100"`), and the program's stable sort fixes an order the model does not reproduce. Parsing of numeric strings is not modelled. A stamp that becomes `NaN` (a missing field, a non-numeric string, most objects) makes the comparator inconsistent, and the program's order is then implementation-defined.
- The stability of the sort is not proved. The insertion sort places each note before the later ones with an equal key, as a stable sort does, but no lemma states it.
- `NoteEditor.Editor.HandleSubmit` takes the outcomes of `saveNote` and of `onSave` as booleans and runs the awaited save in one step. While the save is pending, `isSaving` is true. The model does not show that intermediate state or any event that arrives during it.
- `NoteEditor.Editor.SyncInitialNote` is the effect body. React runs it when the `initialNote` reference changes; the model leaves that decision to the caller.
- `formatDate` (src/utils/dateUtils.ts:3-9) is not modelled because it depends on locale formatting.
- src/firebase-config.ts (configuration and SDK setup) is not part of this model.
- src/components/NoteItem.tsx (a confirm dialog around `deleteNote`, plus display) is not part of this model. Its date helpers come from files that are not part of this model either.
- JSX markup, CSS classes, `disabled` attributes and `console` logging are not modelled.
- Numbers are integers: timestamps are integer milliseconds, and floating point is not modelled.
