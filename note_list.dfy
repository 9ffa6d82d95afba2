/** The note list component: the state its subscription callbacks update
    (`notes`, `loading`, `error`), the screen it renders from that state, and
    the display pipeline that keeps the notes with an id and orders them
    newest first. */
module NoteList {
  import opened JsValues

  /** The message shown when the subscription fails. */
  const LoadFailed: string := "Failed to load notes"

  /** What the component renders, in the order it checks for it. */
  datatype Screen =
    | LoadingMessage
    | ErrorMessage(message: string)
    | EmptyMessage
    | NoteCards(shown: seq<Value>)

  /** The multiset of the values of an object, which is what `Object.values`
      returns up to order. */
  ghost function ValuesOf(m: map<string, Value>): multiset<Value>
    decreases |m|
  {
    if m == map[] then multiset{}
    else
      var k :| k in m;
      multiset{m[k]} + ValuesOf(m - {k})
  }

  /** Taking out any key takes out exactly its value, whichever key `ValuesOf` picks first. */
  lemma {:induction false} ValuesOfRemove(m: map<string, Value>, k: string)
    requires k in m
    ensures ValuesOf(m) == multiset{m[k]} + ValuesOf(m - {k})
    decreases |m|
  {
    var first :| first in m && ValuesOf(m) == multiset{m[first]} + ValuesOf(m - {first});
    if first != k {
      var rest := (m - {first}) - {k};
      assert k in m - {first} && first in m - {k};
      assert (m - {k}) - {first} == rest;
      ValuesOfRemove(m - {first}, k);
      ValuesOfRemove(m - {k}, first);
      assert (m - {first})[k] == m[k] && (m - {k})[first] == m[first];
    }
  }

  /** `Object.values`: every value of the object, once per key. */
  method ObjectValues(m: map<string, Value>) returns (values: seq<Value>)
    ensures multiset(values) == ValuesOf(m)
    ensures |values| == |m|
  {
    values := [];
    var rest := m;
    while rest != map[]
      invariant multiset(values) + ValuesOf(rest) == ValuesOf(m)
      invariant |values| + |rest| == |m|
      decreases |rest|
    {
      var k :| k in rest;
      ValuesOfRemove(rest, k);
      assert multiset(values + [rest[k]]) == multiset(values) + multiset{rest[k]};
      values := values + [rest[k]];
      rest := rest - {k};
    }
  }

  /** The filter `note && note.id`. */
  predicate HasId(note: Value)
  {
    Truthy(note) && Truthy(Get(note, "id"))
  }

  /** The notes that pass `filter((note) => note && note.id)`, in order. */
  function KeepIdentified(notes: seq<Value>): (kept: seq<Value>)
    ensures |kept| <= |notes|
    ensures forall i :: 0 <= i < |kept| ==> HasId(kept[i])
  {
    if notes == [] then []
    else if HasId(notes[0]) then [notes[0]] + KeepIdentified(notes[1..])
    else KeepIdentified(notes[1..])
  }

  /** The filter keeps every note with an id, as often as it occurs, and nothing else. */
  lemma {:induction false} KeepIdentifiedCounts(notes: seq<Value>)
    ensures forall v :: multiset(KeepIdentified(notes))[v] == if HasId(v) then multiset(notes)[v] else 0
  {
    if notes != [] {
      KeepIdentifiedCounts(notes[1..]);
      assert notes == [notes[0]] + notes[1..];
    }
  }

  /** The note's `lastUpdated` when it is a number. */
  predicate Stamped(note: Value)
  {
    Get(note, "lastUpdated").Num?
  }

  /** The number `b.lastUpdated - a.lastUpdated` makes of a stamp, for the
      stamps it converts without parsing text: a number is itself, `null` is
      0, `false` is 0 and `true` is 1. Any other stamp has none here. */
  function StampNumber(t: Value): Option<int>
  {
    match t
    case Num(n) => Some(n)
    case Null => Some(0)
    case Bool(b) => Some(if b then 1 else 0)
    case _ => None
  }

  /** The sort key: the stamp's number when it has one, 0 otherwise. */
  function SortKey(note: Value): int
  {
    var t := Get(note, "lastUpdated");
    if t.Num? then t.n else if t == Bool(true) then 1 else 0
  }

  /** Newest first: sort keys never increase along the sequence. */
  predicate NewestFirst(s: seq<Value>)
  {
    forall i, j :: 0 <= i < j < |s| ==> SortKey(s[i]) >= SortKey(s[j])
  }

  /** Places `note` before the first entry that is not newer than it. */
  function Insert(note: Value, sorted: seq<Value>): (inserted: seq<Value>)
    ensures |inserted| == |sorted| + 1
  {
    if sorted == [] || SortKey(sorted[0]) <= SortKey(note) then [note] + sorted
    else [sorted[0]] + Insert(note, sorted[1..])
  }

  /** `sort((a, b) => b.lastUpdated - a.lastUpdated)`: a stable insertion sort, newest first. */
  function SortNewestFirst(notes: seq<Value>): (sorted: seq<Value>)
    ensures |sorted| == |notes|
  {
    if notes == [] then [] else Insert(notes[0], SortNewestFirst(notes[1..]))
  }

  /** An entry no older than everything in a newest-first sequence can go in front of it. */
  lemma PrependNewest(first: Value, rest: seq<Value>)
    requires NewestFirst(rest)
    requires forall x :: x in rest ==> SortKey(x) <= SortKey(first)
    ensures NewestFirst([first] + rest)
  {
    var s := [first] + rest;
    forall i, j | 0 <= i < j < |s| ensures SortKey(s[i]) >= SortKey(s[j]) {
      assert s[j] == rest[j - 1];
      if i > 0 {
        assert s[i] == rest[i - 1];
      }
    }
  }

  /** Inserting adds exactly the one note and keeps a newest-first sequence newest first. */
  lemma {:induction false} InsertSpec(note: Value, sorted: seq<Value>)
    requires NewestFirst(sorted)
    ensures multiset(Insert(note, sorted)) == multiset{note} + multiset(sorted)
    ensures NewestFirst(Insert(note, sorted))
  {
    if sorted == [] {
      PrependNewest(note, sorted);
    } else if SortKey(sorted[0]) <= SortKey(note) {
      HeadIsNewest(sorted);
      PrependNewest(note, sorted);
    } else {
      InsertSpec(note, sorted[1..]);
      InsertBehindHead(note, sorted);
    }
  }

  /** A note older than the head goes behind it: if inserting into the tail
      adds just that note and keeps it newest first, so does inserting into
      the whole sequence. */
  lemma InsertBehindHead(note: Value, sorted: seq<Value>)
    requires sorted != [] && NewestFirst(sorted) && SortKey(note) < SortKey(sorted[0])
    requires multiset(Insert(note, sorted[1..])) == multiset{note} + multiset(sorted[1..])
    requires NewestFirst(Insert(note, sorted[1..]))
    ensures multiset(Insert(note, sorted)) == multiset{note} + multiset(sorted)
    ensures NewestFirst(Insert(note, sorted))
  {
    var rest := Insert(note, sorted[1..]);
    assert Insert(note, sorted) == [sorted[0]] + rest;
    assert multiset(Insert(note, sorted)) == multiset{note} + multiset(sorted) by {
      assert sorted == [sorted[0]] + sorted[1..];
    }
    InsertedNoNewerThanHead(note, sorted);
    PrependNewest(sorted[0], rest);
  }

  /** Everything inserted behind the head is no newer than it. */
  lemma InsertedNoNewerThanHead(note: Value, sorted: seq<Value>)
    requires sorted != [] && NewestFirst(sorted) && SortKey(note) < SortKey(sorted[0])
    requires multiset(Insert(note, sorted[1..])) == multiset{note} + multiset(sorted[1..])
    ensures forall x :: x in Insert(note, sorted[1..]) ==> SortKey(x) <= SortKey(sorted[0])
  {
    HeadIsNewest(sorted);
    MembersOfInsert(note, sorted[1..]);
    forall x | x in sorted[1..] ensures x in sorted {
    }
  }

  /** What an insertion holds is the inserted note and the entries it went into. */
  lemma MembersOfInsert(note: Value, tail: seq<Value>)
    requires multiset(Insert(note, tail)) == multiset{note} + multiset(tail)
    ensures forall x :: x in Insert(note, tail) ==> x == note || x in tail
  {
    forall x | x in Insert(note, tail) ensures x == note || x in tail {
      assert x in multiset(Insert(note, tail));
    }
  }

  /** The head of a newest-first sequence is no older than any of its entries. */
  lemma HeadIsNewest(sorted: seq<Value>)
    requires sorted != [] && NewestFirst(sorted)
    ensures forall x :: x in sorted ==> SortKey(x) <= SortKey(sorted[0])
  {
    forall x | x in sorted ensures SortKey(x) <= SortKey(sorted[0]) {
      var j :| 0 <= j < |sorted| && sorted[j] == x;
      if j > 0 {
        assert SortKey(sorted[0]) >= SortKey(sorted[j]);
      }
    }
  }

  /** The sort returns a newest-first permutation of its input. */
  lemma {:induction false} SortNewestFirstSpec(notes: seq<Value>)
    ensures multiset(SortNewestFirst(notes)) == multiset(notes)
    ensures NewestFirst(SortNewestFirst(notes))
  {
    if notes != [] {
      SortNewestFirstSpec(notes[1..]);
      InsertSpec(notes[0], SortNewestFirst(notes[1..]));
      assert notes == [notes[0]] + notes[1..];
    }
  }

  /** The notes the list shows, in the order it shows them. */
  function Displayed(notes: seq<Value>): (shown: seq<Value>)
    ensures forall i :: 0 <= i < |shown| ==> Truthy(shown[i]) && Truthy(Get(shown[i], "id"))
    ensures multiset(shown) == multiset(KeepIdentified(notes))
    ensures (forall i :: 0 <= i < |shown| ==> StampNumber(Get(shown[i], "lastUpdated")).Some?) ==>
              forall i, j :: 0 <= i < j < |shown| ==>
                StampNumber(Get(shown[i], "lastUpdated")).value >= StampNumber(Get(shown[j], "lastUpdated")).value
  {
    var kept := KeepIdentified(notes);
    assert NewestFirst(SortNewestFirst(kept)) && multiset(SortNewestFirst(kept)) == multiset(kept) by {
      SortNewestFirstSpec(kept);
    }
    var shown := SortNewestFirst(kept);
    assert forall v :: StampNumber(Get(v, "lastUpdated")).Some? ==>
             StampNumber(Get(v, "lastUpdated")).value == SortKey(v);
    assert forall i :: 0 <= i < |shown| ==> HasId(shown[i]) by {
      KeepIdentifiedCounts(notes);
      forall i | 0 <= i < |shown| ensures HasId(shown[i]) {
        assert shown[i] in multiset(kept);
      }
    }
    shown
  }

  /** When every kept note has a numeric `lastUpdated`, the display is ordered by it. */
  lemma DisplayedOrderedByLastUpdated(notes: seq<Value>)
    requires forall v :: v in notes && HasId(v) ==> Stamped(v)
    ensures forall i, j :: 0 <= i < j < |Displayed(notes)| ==>
              Stamped(Displayed(notes)[i]) && Stamped(Displayed(notes)[j]) &&
              Get(Displayed(notes)[i], "lastUpdated").n >= Get(Displayed(notes)[j], "lastUpdated").n
  {
    var shown := Displayed(notes);
    KeepIdentifiedCounts(notes);
    forall i | 0 <= i < |shown| ensures Stamped(shown[i]) {
      assert shown[i] in multiset(KeepIdentified(notes));
      assert shown[i] in notes;
    }
  }

  /** A note object with the given id and `lastUpdated`. */
  function StampedNote(id: string, lastUpdated: int): Value
  {
    Obj(map["id" := Str(id), "lastUpdated" := Num(lastUpdated)])
  }

  /** A stamped note with a non-empty id is kept and sorts by its stamp. */
  lemma StampedNoteFacts(id: string, lastUpdated: int)
    requires id != ""
    ensures HasId(StampedNote(id, lastUpdated)) && Stamped(StampedNote(id, lastUpdated))
    ensures SortKey(StampedNote(id, lastUpdated)) == lastUpdated
  {
    assert "id" != "lastUpdated" by { assert |"id"| != |"lastUpdated"|; }
  }

  /** Three notes with ids are all kept, in order. */
  lemma KeepAllThree(a: Value, b: Value, c: Value)
    requires HasId(a) && HasId(b) && HasId(c)
    ensures KeepIdentified([a, b, c]) == [a, b, c]
  {
    assert [a, b, c][1..] == [b, c] && [b, c][1..] == [c] && [c][1..] == [];
    assert KeepIdentified([c]) == [c];
    assert KeepIdentified([b, c]) == [b, c];
  }

  /** The sort of two notes already newest first leaves them in place. */
  lemma SortTwo(b: Value, c: Value)
    requires SortKey(c) <= SortKey(b)
    ensures SortNewestFirst([b, c]) == [b, c]
  {
    assert [b, c][1..] == [c] && [c][1..] == [];
    assert SortNewestFirst([c]) == Insert(c, []);
  }

  /** The oldest note goes behind two newer ones. */
  lemma InsertOldest(a: Value, b: Value, c: Value)
    requires SortKey(a) < SortKey(c) <= SortKey(b)
    ensures NewestFirst([b, c])
    ensures Insert(a, [b, c]) == [b, c, a]
  {
    assert [b, c][1..] == [c];
    assert Insert(a, [c]) == [c, a] by {
      assert [c][1..] == [];
      assert Insert(a, []) == [a];
    }
    assert Insert(a, [b, c]) == [b] + Insert(a, [c]);
  }

  /** The sort of three notes stamped low, high, middle. */
  lemma SortThree(a: Value, b: Value, c: Value)
    requires SortKey(a) < SortKey(c) < SortKey(b)
    ensures SortNewestFirst([a, b, c]) == [b, c, a]
  {
    assert [a, b, c][1..] == [b, c];
    SortTwo(b, c);
    InsertOldest(a, b, c);
  }

  /** Notes stamped 100, 300 and 200 are shown as 300, 200, 100. */
  lemma DisplayOrderExample()
    ensures Displayed([StampedNote("a", 100), StampedNote("b", 300), StampedNote("c", 200)])
         == [StampedNote("b", 300), StampedNote("c", 200), StampedNote("a", 100)]
  {
    var a, b, c := StampedNote("a", 100), StampedNote("b", 300), StampedNote("c", 200);
    StampedNoteFacts("a", 100);
    StampedNoteFacts("b", 300);
    StampedNoteFacts("c", 200);
    KeepAllThree(a, b, c);
    SortThree(a, b, c);
  }

  /** The component's state. */
  class NoteListState {
    var notes: seq<Value>
    var loading: bool
    var error: Option<string>

    /** The initial state: no notes, loading, no error. */
    constructor ()
      ensures notes == [] && loading && error == None
    {
      notes, loading, error := [], true, None;
    }

    /** The data callback: an array is stored as it is, any other non-null
        object as its values, anything else as the empty list; loading ends. */
    method OnNotes(fetched: Value)
      modifies this
      ensures fetched.Arr? ==> notes == fetched.items
      ensures fetched.Obj? ==> multiset(notes) == ValuesOf(fetched.fields)
      ensures !fetched.Arr? && !fetched.Obj? ==> notes == []
      ensures !loading && error == old(error)
    {
      if fetched.Arr? {
        notes := fetched.items;
      } else if Truthy(fetched) && fetched.Obj? {
        notes := ObjectValues(fetched.fields);
      } else {
        notes := [];
      }
      loading := false;
    }

    /** The error callback and the catch of a synchronous throw from
        `subscribeToNotes`: the error message is set, loading ends and the
        notes are kept. */
    method OnLoadFailed()
      modifies this
      ensures error == Some(LoadFailed) && !loading && notes == old(notes)
    {
      error := Some(LoadFailed);
      loading := false;
    }

    /** The rendered screen: loading before error, error before the empty
        message, the empty message before the list. */
    function Render(): (screen: Screen)
      reads this
      ensures screen.LoadingMessage? <==> loading
      ensures screen.ErrorMessage? <==> !loading && error.Some? && error.value != ""
      ensures screen.ErrorMessage? ==> screen.message == error.value
      ensures screen.EmptyMessage? <==> !loading && (error.None? || error.value == "") && notes == []
      ensures screen.NoteCards? <==> !loading && (error.None? || error.value == "") && notes != []
      ensures screen.NoteCards? ==> screen.shown == Displayed(notes)
    {
      if loading then LoadingMessage
      else if error.Some? && Truthy(Str(error.value)) then ErrorMessage(error.value)
      else if |notes| == 0 then EmptyMessage
      else NoteCards(Displayed(notes))
    }
  }

  /** After any data delivery, loading is over and the screen is the error,
      the empty message or the list, never the loading message. */
  method DeliveryEndsLoading(fetched: Value) returns (screen: Screen)
    ensures !screen.LoadingMessage?
    ensures fetched.Arr? && fetched.items == [] ==> screen == EmptyMessage
    ensures fetched.Arr? && fetched.items != [] ==> screen == NoteCards(Displayed(fetched.items))
  {
    var list := new NoteListState();
    list.OnNotes(fetched);
    screen := list.Render();
  }

  /** A failed load shows the error, whatever the notes. */
  method FailureShowsError(fetched: Value) returns (screen: Screen)
    ensures screen == ErrorMessage(LoadFailed)
  {
    var list := new NoteListState();
    list.OnNotes(fetched);
    list.OnLoadFailed();
    screen := list.Render();
  }
}
