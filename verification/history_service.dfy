/**
 * The canvas history store (backend/app/services/history_service.py): a
 * JSON file meant to hold a list of canvases, read tolerantly, updated by
 * upsert-by-id and filtered by delete-by-id. The file on disk is a field of
 * the service; a corrupt file is copied to a backup field before it is reset.
 *
 * Nothing checks the shape of what is stored or saved, so the file and the
 * saved body are any JSON value. Where Python raises (`.get` on a non-dict,
 * iterating a number, `.insert` on a dict), an operation answers `None`.
 * Whether the disk accepts writes is the parameter `writable`; `_save_data`
 * swallows a failed write, so the file is then left as it was.
 */
module History {
  import opened Common

  /**
   * The history file: absent; empty or only whitespace; not valid JSON
   * (with its text); not readable at all (an I/O or decoding error); or a
   * valid JSON value, normally a list of canvas objects.
   */
  datatype FileState = Missing | Blank | Corrupt(content: string) | Unreadable | Stored(data: Json)

  /** `c.get('id')` on a canvas object; anything else has no id to offer. */
  function IdOf(c: Json): Json {
    if c.JObject? then Get(c.fields, "id") else JNull
  }

  /** An entry the search accepts: an object whose "id" equals `id`. */
  predicate Matches(c: Json, id: Json) {
    c.JObject? && Get(c.fields, "id") == id
  }

  /** Every entry is an object, so `.get` works on each. */
  predicate Objects(cs: seq<Json>) {
    forall j :: 0 <= j < |cs| ==> cs[j].JObject?
  }

  /** What `_load_data` returns: the stored value, or [] when the file is missing, blank, corrupt or unreadable. */
  function Loaded(f: FileState): Json {
    if f.Stored? then f.data else JList([])
  }

  /** The file after `_load_data`: a corrupt file is reset to [] when the disk takes the write. */
  function AfterLoad(f: FileState, writable: bool): FileState {
    if f.Corrupt? && writable then Stored(JList([])) else f
  }

  /** The backup after `_load_data`: the corrupt file, when `copy2` succeeds. */
  function BackupAfterLoad(f: FileState, backup: Option<FileState>, writable: bool): Option<FileState> {
    if f.Corrupt? && writable then Some(f) else backup
  }

  /** The file after construction: any valid JSON is kept, anything else becomes [] when the disk takes the write. */
  function Initialised(f: FileState, writable: bool): (r: FileState)
    ensures f.Stored? ==> r == f
    ensures !f.Stored? && writable ==> r == Stored(JList([]))
    ensures !writable ==> r == f
    ensures r.Stored? <==> f.Stored? || writable
  {
    if f.Stored? || !writable then f else Stored(JList([]))
  }

  /** The position of the first entry that matches `id`, or -1. */
  function FirstIndex(cs: seq<Json>, id: Json): (k: int)
    ensures -1 <= k < |cs|
    ensures k >= 0 ==> Matches(cs[k], id)
    ensures forall j :: 0 <= j < |cs| && (k < 0 || j < k) ==> !Matches(cs[j], id)
  {
    if cs == [] then -1
    else if Matches(cs[0], id) then 0
    else
      var k := FirstIndex(cs[1..], id);
      if k < 0 then -1 else k + 1
  }

  /** How far the search loop of `save_canvas` looks: up to the first match, or the whole list. */
  function SearchEnd(cs: seq<Json>, canvas: Json): nat {
    var k := FirstIndex(cs, IdOf(canvas));
    if k >= 0 then k else |cs|
  }

  /**
   * Whether the search loop raises: it calls `.get` on each entry it visits
   * and, in the same comparison, on the canvas itself.
   */
  predicate SearchRaises(cs: seq<Json>, canvas: Json) {
    (|cs| > 0 && !canvas.JObject?) || !Objects(cs[..SearchEnd(cs, canvas)])
  }

  /** `save_canvas` on a list: replace the first entry with the same id, or put the canvas in front. */
  function Upsert(cs: seq<Json>, canvas: Json): seq<Json> {
    var k := FirstIndex(cs, IdOf(canvas));
    if k >= 0 then cs[k := canvas] else [canvas] + cs
  }

  /** `delete_canvas` on a list: every entry whose id is not `id`, in order. */
  function Without(cs: seq<Json>, id: string): seq<Json> {
    if cs == [] then []
    else (if !Matches(cs[0], JStr(id)) then [cs[0]] else []) + Without(cs[1..], id)
  }

  /**
   * The value `save_canvas` writes, or None when it raises: a list whose
   * search does not raise is upserted; any other value raises, in the loop
   * or at `.insert`.
   */
  function SaveStored(data: Json, canvas: Json): Option<Json> {
    match data
    case JList(cs) => if SearchRaises(cs, canvas) then None else Some(JList(Upsert(cs, canvas)))
    case _ => None
  }

  /**
   * The value `delete_canvas` writes, or None when it raises: a list of
   * objects is filtered; an empty dict or string iterates to []; any other
   * value raises.
   */
  function DeleteStored(data: Json, id: string): Option<Json> {
    match data
    case JList(cs) => if Objects(cs) then Some(JList(Without(cs, id))) else None
    case JObject(fields) => if fields == map[] then Some(JList([])) else None
    case JStr(s) => if s == "" then Some(JList([])) else None
    case _ => None
  }

  /** The file after writing the outcome of an operation: a raised operation or a refused write leaves it as loaded. */
  function Written(loaded: FileState, outcome: Option<Json>, writable: bool): FileState {
    if outcome.Some? && writable then Stored(outcome.value) else loaded
  }

  /** An existing id is replaced in place: same length, same position, nothing else touched. */
  lemma UpsertReplaces(cs: seq<Json>, canvas: Json)
    requires FirstIndex(cs, IdOf(canvas)) >= 0
    ensures var k := FirstIndex(cs, IdOf(canvas));
      && |Upsert(cs, canvas)| == |cs|
      && Upsert(cs, canvas)[k] == canvas
      && (forall j :: 0 <= j < |cs| && j != k ==> Upsert(cs, canvas)[j] == cs[j])
  {
  }

  /** A new id goes in front and shifts the rest by one. */
  lemma UpsertInserts(cs: seq<Json>, canvas: Json)
    requires forall j :: 0 <= j < |cs| ==> !Matches(cs[j], IdOf(canvas))
    ensures |Upsert(cs, canvas)| == |cs| + 1
    ensures Upsert(cs, canvas)[0] == canvas
    ensures Upsert(cs, canvas)[1..] == cs
  {
  }

  /** The saved canvas is in the stored list afterwards. */
  lemma UpsertContains(cs: seq<Json>, canvas: Json)
    ensures canvas in Upsert(cs, canvas)
  {
    var k := FirstIndex(cs, IdOf(canvas));
    if k >= 0 {
      assert Upsert(cs, canvas)[k] == canvas;
    } else {
      assert Upsert(cs, canvas)[0] == canvas;
    }
  }

  /** Saving the same canvas object twice stores the same list as saving it once. */
  lemma UpsertIdempotent(cs: seq<Json>, canvas: Json)
    requires canvas.JObject?
    ensures Upsert(Upsert(cs, canvas), canvas) == Upsert(cs, canvas)
  {
    var id := IdOf(canvas);
    var k := FirstIndex(cs, id);
    var once := Upsert(cs, canvas);
    if k >= 0 {
      FirstIndexOfUpdate(cs, id, k, canvas);
      assert once[k := canvas] == once;
    } else {
      assert once[0] == canvas;
      assert FirstIndex(once, id) == 0;
      assert once[0 := canvas] == once;
    }
  }

  /** Putting a matching entry at the first match keeps the first match where it was. */
  lemma FirstIndexOfUpdate(cs: seq<Json>, id: Json, k: int, c: Json)
    requires k == FirstIndex(cs, id) >= 0 && Matches(c, id)
    ensures FirstIndex(cs[k := c], id) == k
  {
    var ds := cs[k := c];
    assert Matches(ds[k], id);
  }

  /** A save that succeeded, repeated, stores the same value again. */
  lemma SaveIdempotent(data: Json, canvas: Json)
    requires canvas.JObject?
    requires SaveStored(data, canvas).Some?
    ensures SaveStored(SaveStored(data, canvas).value, canvas) == SaveStored(data, canvas)
  {
    var cs := data.items;
    var id := IdOf(canvas);
    var k := FirstIndex(cs, id);
    var once := Upsert(cs, canvas);
    if k >= 0 {
      FirstIndexOfUpdate(cs, id, k, canvas);
      assert once[..k] == cs[..k];
    } else {
      assert once[0] == canvas;
      assert FirstIndex(once, id) == 0;
    }
    assert !SearchRaises(once, canvas);
    UpsertIdempotent(cs, canvas);
  }

  /** Deleting keeps exactly the entries with another id. */
  lemma {:induction false} WithoutMembers(cs: seq<Json>, id: string)
    ensures forall c :: c in Without(cs, id) <==> c in cs && !Matches(c, JStr(id))
    ensures |Without(cs, id)| <= |cs|
  {
    if cs != [] {
      WithoutMembers(cs[1..], id);
      assert forall c :: c in cs <==> c == cs[0] || c in cs[1..];
    }
  }

  /** Deleting distributes over concatenation, so the kept entries stay in their original order. */
  lemma {:induction false} WithoutAppend(a: seq<Json>, b: seq<Json>, id: string)
    ensures Without(a + b, id) == Without(a, id) + Without(b, id)
  {
    if a == [] {
      assert a + b == b;
    } else {
      assert (a + b)[0] == a[0];
      assert (a + b)[1..] == a[1..] + b;
      WithoutAppend(a[1..], b, id);
      AppendAssoc(if !Matches(a[0], JStr(id)) then [a[0]] else [], Without(a[1..], id), Without(b, id));
    }
  }

  /** Deleting an id no entry has leaves the list as it was. */
  lemma {:induction false} WithoutUnknown(cs: seq<Json>, id: string)
    requires forall j :: 0 <= j < |cs| ==> !Matches(cs[j], JStr(id))
    ensures Without(cs, id) == cs
  {
    if cs != [] {
      WithoutUnknown(cs[1..], id);
      assert [cs[0]] + cs[1..] == cs;
    }
  }

  /** Deleting a canvas right after saving it gives what deleting it would have given before. */
  lemma DeleteAfterSave(cs: seq<Json>, canvas: Json, id: string)
    requires IdOf(canvas) == JStr(id)
    ensures Without(Upsert(cs, canvas), id) == Without(cs, id)
  {
    var k := FirstIndex(cs, JStr(id));
    if k >= 0 {
      assert cs == cs[..k] + [cs[k]] + cs[k + 1..];
      assert cs[k := canvas] == cs[..k] + [canvas] + cs[k + 1..];
      WithoutAppend(cs[..k] + [cs[k]], cs[k + 1..], id);
      WithoutAppend(cs[..k], [cs[k]], id);
      WithoutAppend(cs[..k] + [canvas], cs[k + 1..], id);
      WithoutAppend(cs[..k], [canvas], id);
      assert Without([cs[k]], id) == [] + Without([cs[k]][1..], id);
      assert Without([canvas], id) == [] + Without([canvas][1..], id);
    } else {
      assert ([canvas] + cs)[0] == canvas && ([canvas] + cs)[1..] == cs;
    }
  }

  /** On a list of objects, a canvas object is always saved, and the list stays a list of objects. */
  lemma SaveKeepsObjects(cs: seq<Json>, canvas: Json)
    requires Objects(cs) && canvas.JObject?
    ensures SaveStored(JList(cs), canvas) == Some(JList(Upsert(cs, canvas)))
    ensures Objects(Upsert(cs, canvas))
  {
    assert Objects(cs[..SearchEnd(cs, canvas)]);
    var k := FirstIndex(cs, IdOf(canvas));
    if k < 0 {
      assert forall j :: 1 <= j < |cs| + 1 ==> ([canvas] + cs)[j] == cs[j - 1];
    }
  }

  /** On a list of objects, deleting never raises, and the list stays a list of objects. */
  lemma DeleteKeepsObjects(cs: seq<Json>, id: string)
    requires Objects(cs)
    ensures DeleteStored(JList(cs), id) == Some(JList(Without(cs, id)))
    ensures Objects(Without(cs, id))
  {
    WithoutMembers(cs, id);
    forall j | 0 <= j < |Without(cs, id)|
      ensures Without(cs, id)[j].JObject?
    {
      assert Without(cs, id)[j] in cs;
    }
  }

  /**
   * As written, a non-object body saved on an empty store is stored, and
   * from then on every save and every delete raises.
   */
  lemma NonObjectPoisons(canvas: Json, id: string)
    ensures SaveStored(JList([]), JNum(5)) == Some(JList([JNum(5)]))
    ensures SaveStored(JList([JNum(5)]), canvas) == None
    ensures DeleteStored(JList([JNum(5)]), id) == None
  {
    assert Upsert([], JNum(5)) == [JNum(5)];
    assert ![JNum(5)][0].JObject?;
    assert SearchEnd([JNum(5)], canvas) == 1;
    assert [JNum(5)][..1] == [JNum(5)];
  }

  /** `save_canvas` as intended: a body that is not an object is refused before the store is read. */
  function SaveIntended(data: Json, canvas: Json): Option<Json> {
    if canvas.JObject? then SaveStored(data, canvas) else None
  }

  /**
   * With the refusal, a store holding a list of objects keeps holding one:
   * any canvas object is saved, a non-object is refused and changes nothing,
   * and a delete afterwards does not raise.
   */
  lemma IntendedKeepsObjects(cs: seq<Json>, canvas: Json, id: string)
    requires Objects(cs)
    ensures canvas.JObject? <==> SaveIntended(JList(cs), canvas).Some?
    ensures SaveIntended(JList(cs), canvas).Some? ==>
      && SaveIntended(JList(cs), canvas).value == JList(Upsert(cs, canvas))
      && Objects(Upsert(cs, canvas))
      && DeleteStored(SaveIntended(JList(cs), canvas).value, id).Some?
  {
    if canvas.JObject? {
      SaveKeepsObjects(cs, canvas);
      DeleteKeepsObjects(Upsert(cs, canvas), id);
    }
  }

  class HistoryService {
    /** The history file on disk. */
    var file: FileState
    /** The `.backup` copy, once a corrupt file has been seen by a load. */
    var backup: Option<FileState>

    /** `__init__` with `_ensure_storage_dir`: a missing, blank, corrupt or unreadable file is reset to [], without backup. */
    constructor (onDisk: FileState, writable: bool)
      ensures file == Initialised(onDisk, writable)
      ensures backup == None
    {
      backup := None;
      match onDisk
      case Stored(_) =>
        file := onDisk;
      case _ =>
        // `_save_data([])`, which leaves the file alone when the write fails
        file := if writable then Stored(JList([])) else onDisk;
    }

    /** `_load_data`: a corrupt file is backed up, then reset to []; every other failure answers []. */
    method LoadData(writable: bool) returns (data: Json)
      modifies this
      ensures data == Loaded(old(file))
      ensures file == AfterLoad(old(file), writable)
      ensures backup == BackupAfterLoad(old(file), old(backup), writable)
    {
      match file
      case Stored(d) =>
        data := d;
      case Corrupt(_) =>
        if writable {
          backup := Some(file);
          file := Stored(JList([]));
        }
        data := JList([]);
      case _ =>
        data := JList([]);
    }

    /** `get_canvases`. */
    method GetCanvases(writable: bool) returns (data: Json)
      modifies this
      ensures data == Loaded(old(file))
      ensures file == AfterLoad(old(file), writable)
      ensures backup == BackupAfterLoad(old(file), old(backup), writable)
    {
      data := LoadData(writable);
    }

    /**
     * The search loop of `save_canvas`: the first position whose id matches
     * the canvas's, -1 when there is none, or None when a `.get` raises.
     */
    static method FindIndex(canvases: seq<Json>, canvas: Json) returns (index: Option<int>)
      ensures index.None? <==> SearchRaises(canvases, canvas)
      ensures index.Some? ==> index.value == FirstIndex(canvases, IdOf(canvas))
    {
      var id := IdOf(canvas);
      var i := 0;
      while i < |canvases|
        invariant 0 <= i <= |canvases|
        invariant forall j :: 0 <= j < i ==> canvases[j].JObject? && !Matches(canvases[j], id)
        invariant i > 0 ==> canvas.JObject?
      {
        if !canvas.JObject? {
          return None;
        }
        if !canvases[i].JObject? {
          assert SearchEnd(canvases, canvas) > i;
          assert !canvases[..SearchEnd(canvases, canvas)][i].JObject?;
          return None;
        }
        if Get(canvases[i].fields, "id") == Get(canvas.fields, "id") {
          assert canvases[..i] == canvases[..SearchEnd(canvases, canvas)];
          return Some(i);
        }
        i := i + 1;
      }
      assert canvases[..|canvases|] == canvases;
      return Some(-1);
    }

    /** `save_canvas`: upsert by id and write the list back; the canvas given is returned, or None when the method raises. */
    method SaveCanvas(canvas: Json, writable: bool) returns (saved: Option<Json>)
      modifies this
      ensures saved == if SaveStored(Loaded(old(file)), canvas).Some? then Some(canvas) else None
      ensures file == Written(AfterLoad(old(file), writable), SaveStored(Loaded(old(file)), canvas), writable)
      ensures backup == BackupAfterLoad(old(file), old(backup), writable)
    {
      var data := LoadData(writable);
      if !data.JList? {
        return None;
      }
      var canvases := data.items;
      var index := FindIndex(canvases, canvas);
      if index.None? {
        return None;
      }
      if index.value >= 0 {
        canvases := canvases[index.value := canvas];
      } else {
        canvases := [canvas] + canvases;
      }
      if writable {
        file := Stored(JList(canvases));
      }
      saved := Some(canvas);
    }

    /** `delete_canvas`: drop every entry with the id and write the list back; true, or None when the method raises. */
    method DeleteCanvas(id: string, writable: bool) returns (ok: Option<bool>)
      modifies this
      ensures ok == if DeleteStored(Loaded(old(file)), id).Some? then Some(true) else None
      ensures file == Written(AfterLoad(old(file), writable), DeleteStored(Loaded(old(file)), id), writable)
      ensures backup == BackupAfterLoad(old(file), old(backup), writable)
    {
      var data := LoadData(writable);
      var kept := DeleteStored(data, id);
      if kept.None? {
        return None;
      }
      if writable {
        file := Stored(kept.value);
      }
      ok := Some(true);
    }
  }
}
