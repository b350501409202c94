/**
 A file-backed record store over one collection. The collection folder is
 modelled as a finite map from file name (the record's `_id`) to the file's
 text; every operation takes the current folder contents and returns a `Step`:
 the folder contents afterwards and the operation's value or error.
 */
module DbClassOperator {
  import opened Results
  import opened Serialization

  /** A filesystem path, as its sequence of components. */
  type Path = seq<string>

  /** The files directly inside the collection folder: file name to content. */
  type Dir = map<Id, Text>

  /** The exceptions the store raises, one constructor per kind. */
  datatype Error =
    | NotADbClass(className: string)  // ValueError from the constructor
    | NoSuchElement(id: Id)           // NoSuchElementException from delete_by_id
    | FileNotFound(id: Id)            // read_text on a file that does not exist
    | InvalidJson(id: Id)             // json.loads rejects the file's text
    | NotDeserializable(id: Id)       // deserialize rejects the decoded dictionary

  /** The folder contents after an operation, and what the operation returned or raised. */
  datatype Step<T> = Step(dir: Dir, result: Result<T, Error>)

  /** The fields a `DbClassOperator` instance holds; `json` is the module it calls. */
  datatype Operator<!R, !D> = Operator(
    folder: Path,
    cls: RecordClass<R, D>,
    json: Json<D>,
    collectionName: string,
    collectionFolder: Path)

  /** What construction establishes about an operator's fields. */
  predicate Valid<R, D>(op: Operator<R, D>) {
    && op.cls.isDbClass
    && op.collectionName == op.cls.name
    && op.collectionFolder == op.folder + [op.collectionName]
  }

  /** `DbClassOperator(folder, operated_class)`: binds the folder and derives the collection folder from the class name. */
  function New<R, D>(folder: Path, cls: RecordClass<R, D>, json: Json<D>): (r: Result<Operator<R, D>, Error>)
    ensures r.Ok? <==> cls.isDbClass
    ensures r.Err? ==> r.error == NotADbClass(cls.name)
    ensures r.Ok? ==> Valid(r.value) && r.value.folder == folder && r.value.collectionFolder == folder + [cls.name]
    ensures r.Ok? ==> r.value.cls == cls && r.value.json == json
  {
    if !cls.isDbClass then Err(NotADbClass(cls.name))
    else Ok(Operator(folder, cls, json, cls.name, folder + [cls.name]))
  }

  /** The file that holds the record with identifier `id`: `collection_folder.joinpath(id)`. */
  function PathOf<R, D>(op: Operator<R, D>, id: Id): Path {
    op.collectionFolder + [id]
  }

  /** The text `write` stores for a record: `json.dumps(element.serialize())`. */
  function Encode<R, D>(op: Operator<R, D>, e: R): Text {
    op.json.dumps(op.cls.serialize(e))
  }

  /** `operated_class.deserialize(d)` for the record read from file `id`. */
  function FromDict<R, D>(op: Operator<R, D>, id: Id, d: D): Result<R, Error> {
    match op.cls.deserialize(d)
    case None => Err(NotDeserializable(id))
    case Some(e) => Ok(e)
  }

  /** The two decoding steps of `conv_to_dbclass` applied to the text of file `id`. */
  function Decode<R, D>(op: Operator<R, D>, id: Id, text: Text): Result<R, Error> {
    match op.json.loads(text)
    case None => Err(InvalidJson(id))
    case Some(d) => FromDict(op, id, d)
  }

  /** Decoding inverts `Encode` when both foreign layers round-trip. */
  lemma DecodeEncode<R(!new), D(!new)>(op: Operator<R, D>, id: Id, e: R)
    requires JsonRoundTrips(op.json) && RecordRoundTrips(op.cls)
    ensures Decode(op, id, Encode(op, e)) == Ok(e)
  {
    assert op.json.loads(Encode(op, e)) == Some(op.cls.serialize(e));
  }

  /**
   `conv_to_dbclass` on the file of `id` in the collection folder: read the text,
   parse it as JSON, deserialize it. Every caller passes such a path.
   */
  function ConvToDbClass<R, D>(op: Operator<R, D>, dir: Dir, id: Id): (s: Step<R>)
    ensures s.dir == dir
    ensures id !in dir ==> s.result == Err(FileNotFound(id))
    ensures s.result.Ok? ==>
      && id in dir && op.json.loads(dir[id]).Some?
      && op.cls.deserialize(op.json.loads(dir[id]).value) == Some(s.result.value)
    ensures id in dir && op.json.loads(dir[id]).None? ==> s.result == Err(InvalidJson(id))
    ensures id in dir && op.json.loads(dir[id]).Some? ==>
      match op.cls.deserialize(op.json.loads(dir[id]).value)
      case None => s.result == Err(NotDeserializable(id))
      case Some(e) => s.result == Ok(e)
    ensures s.result.Err? ==> s.result.error in {FileNotFound(id), InvalidJson(id), NotDeserializable(id)}
    ensures id in dir && s.result.Err? ==> s.result.error != FileNotFound(id)
  {
    if id !in dir then Step(dir, Err(FileNotFound(id)))
    else Step(dir, Decode(op, id, dir[id]))
  }

  /**
   `load(object_id)`. Its guard `if not path` tests a `Path` object, which is
   always truthy, so the guard never raises: a missing file surfaces as the
   error of reading it.
   */
  function Load<R, D>(op: Operator<R, D>, dir: Dir, id: Id): (s: Step<R>)
    ensures s.dir == dir
    ensures id !in dir ==> s.result == Err(FileNotFound(id))
    ensures id in dir && s.result.Err? ==> !s.result.error.FileNotFound?
    ensures id in dir && op.json.loads(dir[id]).None? ==> s.result == Err(InvalidJson(id))
    ensures id in dir && op.json.loads(dir[id]).Some? && op.cls.deserialize(op.json.loads(dir[id]).value).None? ==>
      s.result == Err(NotDeserializable(id))
    ensures id in dir && op.json.loads(dir[id]).Some? && op.cls.deserialize(op.json.loads(dir[id]).value).Some? ==>
      s.result == Ok(op.cls.deserialize(op.json.loads(dir[id]).value).value)
    ensures s.result.Ok? ==>
      && id in dir && op.json.loads(dir[id]).Some?
      && op.cls.deserialize(op.json.loads(dir[id]).value) == Some(s.result.value)
    ensures s.result.Err? ==> s.result.error in {FileNotFound(id), InvalidJson(id), NotDeserializable(id)}
    ensures s.result.Err? ==> !s.result.error.NoSuchElement?
  {
    ConvToDbClass(op, dir, id)
  }

  /** `write(element)`: creates or overwrites the file named by the record's id and returns the record. */
  function Write<R, D>(op: Operator<R, D>, dir: Dir, e: R): (s: Step<R>)
    ensures s.result == Ok(e)
    ensures s.dir.Keys == dir.Keys + {op.cls.id(e)}
    ensures s.dir[op.cls.id(e)] == Encode(op, e)
    ensures forall k :: k in dir && k != op.cls.id(e) ==> s.dir[k] == dir[k]
  {
    Step(dir[op.cls.id(e) := Encode(op, e)], Ok(e))
  }

  /** `update(element)`: delegates to `write`. */
  function Update<R, D>(op: Operator<R, D>, dir: Dir, e: R): (s: Step<R>)
    ensures s == Write(op, dir, e)
  {
    Write(op, dir, e)
  }

  /** `delete_by_id(element_id)`: removes the file, after checking that it exists. */
  function DeleteById<R, D>(op: Operator<R, D>, dir: Dir, id: Id): (s: Step<()>)
    ensures id !in dir ==> s == Step(dir, Err(NoSuchElement(id)))
    ensures id in dir ==> s.result.Ok? && s.dir.Keys == dir.Keys - {id}
    ensures forall k :: k in s.dir ==> k in dir && s.dir[k] == dir[k]
  {
    if id !in dir then Step(dir, Err(NoSuchElement(id)))
    else Step(dir - {id}, Ok(()))
  }

  /** `delete(element)`: deletes by the record's own id. */
  function Delete<R, D>(op: Operator<R, D>, dir: Dir, e: R): (s: Step<()>)
    ensures s == DeleteById(op, dir, op.cls.id(e))
  {
    DeleteById(op, dir, op.cls.id(e))
  }

  /**
   `load_multiple(element_ids)`: one `load` per id, results kept at the index of
   their id. The source runs the loads on threads that own disjoint result
   slots; here they run in index order, and a failing load fails the whole batch
   with the error of the first failing index.
   */
  function LoadMultiple<R, D>(op: Operator<R, D>, dir: Dir, ids: seq<Id>): (s: Step<seq<R>>)
    ensures s.dir == dir
    ensures s.result.Ok? <==> forall i :: 0 <= i < |ids| ==> Load(op, dir, ids[i]).result.Ok?
    ensures s.result.Ok? ==>
      && |s.result.value| == |ids|
      && forall i :: 0 <= i < |ids| ==> Load(op, dir, ids[i]).result == Ok(s.result.value[i])
    ensures s.result.Err? ==>
      exists i :: 0 <= i < |ids| && FirstFailure(op, dir, ids, i) && Load(op, dir, ids[i]).result == Err(s.result.error)
    decreases |ids|
  {
    if |ids| == 0 then Step(dir, Ok([]))
    else
      var head := Load(op, dir, ids[0]).result;
      var tail := LoadMultiple(op, dir, ids[1..]).result;
      if head.Err? then
        assert FirstFailure(op, dir, ids, 0);
        Step(dir, Err(head.error))
      else if tail.Err? then
        FirstFailureAfterHead(op, dir, ids, tail.error);
        Step(dir, Err(tail.error))
      else
        Step(dir, Ok([head.value] + tail.value))
  }

  /** Index `i` holds the first id of `ids` whose load fails. */
  ghost predicate FirstFailure<R, D>(op: Operator<R, D>, dir: Dir, ids: seq<Id>, i: int)
    requires 0 <= i < |ids|
  {
    && Load(op, dir, ids[i]).result.Err?
    && forall j :: 0 <= j < i ==> Load(op, dir, ids[j]).result.Ok?
  }

  /** A first failure in the ids after a loadable head is a first failure of the whole sequence, one index later. */
  lemma FirstFailureAfterHead<R, D>(op: Operator<R, D>, dir: Dir, ids: seq<Id>, err: Error)
    requires |ids| > 0 && Load(op, dir, ids[0]).result.Ok?
    requires exists i :: 0 <= i < |ids[1..]| && FirstFailure(op, dir, ids[1..], i) && Load(op, dir, ids[1..][i]).result == Err(err)
    ensures exists i :: 0 <= i < |ids| && FirstFailure(op, dir, ids, i) && Load(op, dir, ids[i]).result == Err(err)
  {
    var i :| 0 <= i < |ids[1..]| && FirstFailure(op, dir, ids[1..], i) && Load(op, dir, ids[1..][i]).result == Err(err);
    assert FirstFailure(op, dir, ids, i + 1);
  }

  /** `listing` enumerates the files of the collection folder, each exactly once, in some order. */
  ghost predicate IsListing(dir: Dir, listing: seq<Id>) {
    multiset(listing) == multiset(dir.Keys)
  }

  /**
   `load_all()`: `conv_to_dbclass` over the folder's entries in the order the
   filesystem lists them, which is a parameter here. `load(id)` is
   `conv_to_dbclass` of the file named `id`, so this is `load_multiple` of the
   listing; the source's iterator is lazy, the model reads every entry.
   */
  function LoadAll<R, D>(op: Operator<R, D>, dir: Dir, listing: seq<Id>): (s: Step<seq<R>>)
    requires IsListing(dir, listing)
    ensures s.dir == dir
    ensures s.result.Ok? <==> forall k :: k in dir ==> Load(op, dir, k).result.Ok?
    ensures s.result.Ok? ==>
      && |s.result.value| == |listing| == |dir|
      && forall i :: 0 <= i < |listing| ==> listing[i] in dir && Load(op, dir, listing[i]).result == Ok(s.result.value[i])
    ensures s.result.Err? ==> s.result.error.InvalidJson? || s.result.error.NotDeserializable?
  {
    ListingMembers(dir, listing);
    LoadMultiple(op, dir, listing)
  }

  /** A listing holds exactly the folder's file names and has one element per file. */
  lemma ListingMembers(dir: Dir, listing: seq<Id>)
    requires IsListing(dir, listing)
    ensures |listing| == |dir|
    ensures forall k :: k in listing <==> k in dir
  {
    assert |multiset(listing)| == |listing|;
    assert |multiset(dir.Keys)| == |dir.Keys|;
    forall k
      ensures k in listing <==> k in dir
    {
      assert k in listing <==> k in multiset(listing);
      assert k in dir.Keys <==> k in multiset(dir.Keys);
    }
  }

  /** The identifiers of a batch of records. */
  function IdSet<R, D>(op: Operator<R, D>, es: seq<R>): set<Id> {
    set i | 0 <= i < |es| :: op.cls.id(es[i])
  }

  /** No record after index `i` of the batch has the same id as `es[i]`. */
  ghost predicate LastWithId<R, D>(op: Operator<R, D>, es: seq<R>, i: int)
    requires 0 <= i < |es|
  {
    forall j :: i < j < |es| ==> op.cls.id(es[j]) != op.cls.id(es[i])
  }

  /**
   `write_multiple(elements)`: one `write` per record, results kept at the index
   of their record. The source runs the writes on threads; here they run in
   index order, so of two records with the same id the later one is kept.
   */
  function WriteMultiple<R, D>(op: Operator<R, D>, dir: Dir, es: seq<R>): (s: Step<seq<R>>)
    ensures s.result == Ok(es)
    decreases |es|
  {
    if |es| == 0 then Step(dir, Ok([]))
    else
      var first := Write(op, dir, es[0]);
      var rest := WriteMultiple(op, first.dir, es[1..]);
      assert es == [es[0]] + es[1..];
      Step(rest.dir, Ok([first.result.value] + rest.result.value))
  }

  /** The folder after `write_multiple` holds the files it held before plus one per id of the batch. */
  lemma {:induction false} WriteMultipleKeys<R, D>(op: Operator<R, D>, dir: Dir, es: seq<R>)
    ensures WriteMultiple(op, dir, es).dir.Keys == dir.Keys + IdSet(op, es)
    decreases |es|
  {
    if |es| > 0 {
      WriteMultipleKeys(op, Write(op, dir, es[0]).dir, es[1..]);
      IdSetCons(op, es);
    }
  }

  /** After `write_multiple`, each id of the batch holds the encoding of the last record with that id. */
  lemma {:induction false} WriteMultipleLastWins<R, D>(op: Operator<R, D>, dir: Dir, es: seq<R>)
    ensures forall i :: 0 <= i < |es| && LastWithId(op, es, i) ==>
      && op.cls.id(es[i]) in WriteMultiple(op, dir, es).dir
      && WriteMultiple(op, dir, es).dir[op.cls.id(es[i])] == Encode(op, es[i])
    decreases |es|
  {
    if |es| > 0 {
      var first := Write(op, dir, es[0]).dir;
      var after := WriteMultiple(op, dir, es).dir;
      assert after == WriteMultiple(op, first, es[1..]).dir;
      IdSetCons(op, es);
      if LastWithId(op, es, 0) {
        WriteMultipleUntouched(op, first, es[1..]);
        assert after[op.cls.id(es[0])] == first[op.cls.id(es[0])];
      }
      WriteMultipleLastWins(op, first, es[1..]);
      forall i | 0 < i < |es| && LastWithId(op, es, i)
        ensures op.cls.id(es[i]) in after && after[op.cls.id(es[i])] == Encode(op, es[i])
      {
        assert es[1..][i - 1] == es[i];
        assert LastWithId(op, es[1..], i - 1);
      }
    }
  }

  /** `write_multiple` leaves every file whose id is not in the batch as it was. */
  lemma {:induction false} WriteMultipleUntouched<R, D>(op: Operator<R, D>, dir: Dir, es: seq<R>)
    ensures forall k :: k in dir && k !in IdSet(op, es) ==>
      k in WriteMultiple(op, dir, es).dir && WriteMultiple(op, dir, es).dir[k] == dir[k]
    decreases |es|
  {
    if |es| > 0 {
      WriteMultipleUntouched(op, Write(op, dir, es[0]).dir, es[1..]);
      IdSetCons(op, es);
    }
  }

  /** The ids of a non-empty batch: the first record's id and those of the rest. */
  lemma IdSetCons<R, D>(op: Operator<R, D>, es: seq<R>)
    requires |es| > 0
    ensures IdSet(op, es) == {op.cls.id(es[0])} + IdSet(op, es[1..])
    ensures LastWithId(op, es, 0) <==> op.cls.id(es[0]) !in IdSet(op, es[1..])
    ensures forall i :: 0 < i < |es| ==> (LastWithId(op, es, i) <==> LastWithId(op, es[1..], i - 1))
  {
    var tail := es[1..];
    forall k | k in IdSet(op, es)
      ensures k in {op.cls.id(es[0])} + IdSet(op, tail)
    {
      var i :| 0 <= i < |es| && op.cls.id(es[i]) == k;
      if i > 0 {
        assert tail[i - 1] == es[i];
      }
    }
    forall k | k in IdSet(op, tail)
      ensures k in IdSet(op, es)
    {
      var i :| 0 <= i < |tail| && op.cls.id(tail[i]) == k;
      assert es[i + 1] == tail[i];
    }
    if !LastWithId(op, es, 0) {
      var j :| 0 < j < |es| && op.cls.id(es[j]) == op.cls.id(es[0]);
      assert tail[j - 1] == es[j];
    }
    if op.cls.id(es[0]) in IdSet(op, tail) {
      var j :| 0 <= j < |tail| && op.cls.id(tail[j]) == op.cls.id(es[0]);
      assert es[j + 1] == tail[j];
    }
  }
}
