/**
 Properties of the record store that relate several operations: round trips
 through the foreign encoders, overwrite and delete behaviour, and what the
 batch operations and the scan return.
 */
module DbClassOperatorProperties {
  import opened Results
  import opened Serialization
  import opened DbClassOperator
  import Sequences

  /** No two records of the batch share an id. */
  ghost predicate DistinctIds<R, D>(op: Operator<R, D>, es: seq<R>) {
    forall i, j :: 0 <= i < j < |es| ==> op.cls.id(es[i]) != op.cls.id(es[j])
  }

  /** The ids of a batch of records, in batch order. */
  function IdsOf<R, D>(op: Operator<R, D>, es: seq<R>): seq<Id> {
    seq(|es|, i requires 0 <= i < |es| => op.cls.id(es[i]))
  }

  // ---------------------------------------------------------------------------
  // Construction and paths

  /** Different ids name different files, so keying the folder by id loses nothing. */
  lemma PathOfInjective<R, D>(op: Operator<R, D>, a: Id, b: Id)
    requires a != b
    ensures PathOf(op, a) != PathOf(op, b)
  {
    assert PathOf(op, a)[|op.collectionFolder|] == a;
    assert PathOf(op, b)[|op.collectionFolder|] == b;
  }

  /**
   Two operators as construction leaves them, for record classes with different
   names under one folder, never share a file. `New` establishes `Valid`.
   */
  lemma CollectionsSeparate<R1, D1, R2, D2>(op1: Operator<R1, D1>, op2: Operator<R2, D2>, a: Id, b: Id)
    requires Valid(op1) && Valid(op2)
    requires op1.folder == op2.folder && op1.cls.name != op2.cls.name
    ensures PathOf(op1, a) != PathOf(op2, b)
  {
    assert PathOf(op1, a)[|op1.folder|] == op1.cls.name;
    assert PathOf(op2, b)[|op2.folder|] == op2.cls.name;
  }

  // ---------------------------------------------------------------------------
  // Single-record operations

  /**
   After `write(e)`, `load(e._id)` returns `deserialize(serialize(e))`, which is
   `e` itself when the record class round-trips.
   */
  lemma WriteThenLoad<R(!new), D(!new)>(op: Operator<R, D>, dir: Dir, e: R)
    requires JsonRoundTrips(op.json)
    ensures Load(op, Write(op, dir, e).dir, op.cls.id(e)).result == FromDict(op, op.cls.id(e), op.cls.serialize(e))
    ensures RecordRoundTrips(op.cls) ==> Load(op, Write(op, dir, e).dir, op.cls.id(e)).result == Ok(e)
  {
    var id := op.cls.id(e);
    assert Write(op, dir, e).dir[id] == Encode(op, e);
    assert op.json.loads(Encode(op, e)) == Some(op.cls.serialize(e));
  }

  /** Writing two records with the same id leaves one file, holding the second record. */
  lemma WriteOverwrites<R, D>(op: Operator<R, D>, dir: Dir, e1: R, e2: R)
    requires op.cls.id(e1) == op.cls.id(e2)
    ensures Write(op, Write(op, dir, e1).dir, e2).dir == Write(op, dir, e2).dir
    ensures Write(op, Write(op, dir, e1).dir, e2).dir.Keys == dir.Keys + {op.cls.id(e2)}
  {
  }

  /** Deleting a record that was just created restores the folder. */
  lemma DeleteUndoesWrite<R, D>(op: Operator<R, D>, dir: Dir, e: R)
    requires op.cls.id(e) !in dir
    ensures DeleteById(op, Write(op, dir, e).dir, op.cls.id(e)) == Step(dir, Ok(()))
  {
    assert Write(op, dir, e).dir - {op.cls.id(e)} == dir;
  }

  /** After a successful delete the record cannot be loaded, and a second delete raises `NoSuchElement`. */
  lemma DeleteThenLoad<R, D>(op: Operator<R, D>, dir: Dir, id: Id)
    requires id in dir
    ensures Load(op, DeleteById(op, dir, id).dir, id).result == Err(FileNotFound(id))
    ensures DeleteById(op, DeleteById(op, dir, id).dir, id).result == Err(NoSuchElement(id))
  {
  }

  // ---------------------------------------------------------------------------
  // Batch operations

  /**
   A batch whose loads fail at index `i` first reports exactly that load's error:
   a missing id after loadable ones fails the batch with `FileNotFound`.
   */
  lemma LoadMultipleReportsFirstFailure<R, D>(op: Operator<R, D>, dir: Dir, ids: seq<Id>, i: int)
    requires 0 <= i < |ids| && FirstFailure(op, dir, ids, i)
    ensures LoadMultiple(op, dir, ids).result == Err(Load(op, dir, ids[i]).result.error)
    ensures ids[i] !in dir ==> LoadMultiple(op, dir, ids).result == Err(FileNotFound(ids[i]))
  {
    var r := LoadMultiple(op, dir, ids).result;
    assert r.Err?;
    var j :| 0 <= j < |ids| && FirstFailure(op, dir, ids, j) && Load(op, dir, ids[j]).result == Err(r.error);
    assert !(j < i) && !(i < j);
  }

  /** Two batches with the same records have the same ids. */
  lemma IdSetSameRecords<R, D>(op: Operator<R, D>, es: seq<R>, es': seq<R>)
    requires forall x :: x in es <==> x in es'
    ensures IdSet(op, es') == IdSet(op, es)
  {
    forall k | k in IdSet(op, es)
      ensures k in IdSet(op, es')
    {
      var i :| 0 <= i < |es| && op.cls.id(es[i]) == k;
      assert es[i] in es';
      var j :| 0 <= j < |es'| && es'[j] == es[i];
    }
    forall k | k in IdSet(op, es')
      ensures k in IdSet(op, es)
    {
      var j :| 0 <= j < |es'| && op.cls.id(es'[j]) == k;
      assert es'[j] in es;
      var i :| 0 <= i < |es| && es[i] == es'[j];
    }
  }

  /** Two orders of a batch with distinct ids leave the same content under each batch id. */
  lemma SameContentPerId<R, D>(op: Operator<R, D>, dir: Dir, es: seq<R>, es': seq<R>, k: Id)
    requires DistinctIds(op, es) && DistinctIds(op, es') && forall x :: x in es <==> x in es'
    requires k in IdSet(op, es)
    ensures k in WriteMultiple(op, dir, es).dir && k in WriteMultiple(op, dir, es').dir
    ensures WriteMultiple(op, dir, es).dir[k] == WriteMultiple(op, dir, es').dir[k]
  {
    var i :| 0 <= i < |es| && op.cls.id(es[i]) == k;
    assert es[i] in es';
    var j :| 0 <= j < |es'| && es'[j] == es[i];
    assert LastWithId(op, es, i) && LastWithId(op, es', j);
    WriteMultipleLastWins(op, dir, es);
    WriteMultipleLastWins(op, dir, es');
  }

  /**
   With distinct ids, the folder after `write_multiple` does not depend on the
   order of the batch: any reordering `es'` of the same records, again with
   distinct ids, leaves the same files.
   */
  lemma WriteMultipleOrderIndependent<R, D>(op: Operator<R, D>, dir: Dir, es: seq<R>, es': seq<R>)
    requires DistinctIds(op, es) && DistinctIds(op, es')
    requires forall x :: x in es <==> x in es'
    ensures WriteMultiple(op, dir, es').dir == WriteMultiple(op, dir, es).dir
  {
    IdSetSameRecords(op, es, es');
    WriteMultipleKeys(op, dir, es);
    WriteMultipleKeys(op, dir, es');
    WriteMultipleUntouched(op, dir, es);
    WriteMultipleUntouched(op, dir, es');
    var a := WriteMultiple(op, dir, es).dir;
    var b := WriteMultiple(op, dir, es').dir;
    forall k | k in a
      ensures a[k] == b[k]
    {
      if k in IdSet(op, es) {
        SameContentPerId(op, dir, es, es', k);
      }
    }
    assert a.Keys == b.Keys;
  }

  /**
   A batch written with distinct ids is loaded back, in batch order, by
   `load_multiple` of its ids, when both foreign layers round-trip.
   */
  lemma WriteMultipleThenLoadMultiple<R(!new), D(!new)>(op: Operator<R, D>, dir: Dir, es: seq<R>)
    requires JsonRoundTrips(op.json) && RecordRoundTrips(op.cls)
    requires DistinctIds(op, es)
    ensures LoadMultiple(op, WriteMultiple(op, dir, es).dir, IdsOf(op, es)).result == Ok(es)
  {
    var after := WriteMultiple(op, dir, es).dir;
    var ids := IdsOf(op, es);
    WriteMultipleLastWins(op, dir, es);
    forall i | 0 <= i < |es|
      ensures Load(op, after, ids[i]).result == Ok(es[i])
    {
      assert LastWithId(op, es, i);
      DecodeEncode(op, ids[i], es[i]);
    }
    var r := LoadMultiple(op, after, ids).result;
    assert r.Ok?;
    assert r.value == es;
  }

  /**
   The records `load_all` yields do not depend on the order in which the
   filesystem lists the folder: any two listings give the same multiset.
   */
  lemma LoadAllListingIrrelevant<R, D>(op: Operator<R, D>, dir: Dir, l1: seq<Id>, l2: seq<Id>)
    requires IsListing(dir, l1) && IsListing(dir, l2)
    ensures LoadAll(op, dir, l1).result.Ok? == LoadAll(op, dir, l2).result.Ok?
    ensures LoadAll(op, dir, l1).result.Ok? ==>
      multiset(LoadAll(op, dir, l1).result.value) == multiset(LoadAll(op, dir, l2).result.value)
  {
    if LoadAll(op, dir, l1).result.Ok? {
      var f := (id: Id) => Load(op, dir, id).result;
      assert Sequences.Aligned(f, l1, LoadAll(op, dir, l1).result.value);
      Sequences.AlignedPermutation(f, l1, LoadAll(op, dir, l1).result.value, l2, LoadAll(op, dir, l2).result.value);
    }
  }

  /**
   A successful `load_all` yields every record whose encoding is stored under
   its own id (with round-tripping encoders).
   */
  lemma LoadAllYieldsStored<R(!new), D(!new)>(op: Operator<R, D>, dir: Dir, es: seq<R>, listing: seq<Id>)
    requires JsonRoundTrips(op.json) && RecordRoundTrips(op.cls)
    requires forall i :: 0 <= i < |es| ==> op.cls.id(es[i]) in dir && dir[op.cls.id(es[i])] == Encode(op, es[i])
    requires IsListing(dir, listing)
    requires LoadAll(op, dir, listing).result.Ok?
    ensures forall e :: e in es ==> e in LoadAll(op, dir, listing).result.value
  {
    var vs := LoadAll(op, dir, listing).result.value;
    ListingMembers(dir, listing);
    forall e | e in es
      ensures e in vs
    {
      var i :| 0 <= i < |es| && es[i] == e;
      var id := op.cls.id(e);
      DecodeEncode(op, id, e);
      assert id in listing;
      var j :| 0 <= j < |listing| && listing[j] == id;
      assert vs[j] == e;
    }
  }

  /**
   After `write_multiple` with distinct ids, a successful `load_all` yields
   exactly the batch and the records of the files the batch left alone: every
   record of the batch, every record of an untouched old file, one record per
   file, and nothing that is neither a record of the batch nor the load of an
   untouched old file (with round-tripping encoders).
   */
  lemma WriteMultipleThenLoadAll<R(!new), D(!new)>(op: Operator<R, D>, dir: Dir, es: seq<R>, listing: seq<Id>)
    requires JsonRoundTrips(op.json) && RecordRoundTrips(op.cls)
    requires DistinctIds(op, es)
    requires IsListing(WriteMultiple(op, dir, es).dir, listing)
    requires LoadAll(op, WriteMultiple(op, dir, es).dir, listing).result.Ok?
    ensures forall e :: e in es ==> e in LoadAll(op, WriteMultiple(op, dir, es).dir, listing).result.value
    ensures |LoadAll(op, WriteMultiple(op, dir, es).dir, listing).result.value| == |dir.Keys + IdSet(op, es)|
    ensures forall v :: v in LoadAll(op, WriteMultiple(op, dir, es).dir, listing).result.value ==>
      v in es || exists k :: k in dir && k !in IdSet(op, es) && Load(op, dir, k).result == Ok(v)
    ensures forall k :: k in dir && k !in IdSet(op, es) ==>
      Load(op, dir, k).result.Ok? && Load(op, dir, k).result.value in LoadAll(op, WriteMultiple(op, dir, es).dir, listing).result.value
  {
    var after := WriteMultiple(op, dir, es).dir;
    var vs := LoadAll(op, after, listing).result.value;
    WriteMultipleLastWins(op, dir, es);
    assert forall i :: 0 <= i < |es| ==> LastWithId(op, es, i);
    LoadAllYieldsStored(op, after, es, listing);
    LoadAllAfterWriteMultipleOnly(op, dir, es, listing);
    WriteMultipleUntouched(op, dir, es);
    ListingMembers(after, listing);
    forall k | k in dir && k !in IdSet(op, es)
      ensures Load(op, dir, k).result.Ok? && Load(op, dir, k).result.value in vs
    {
      var j :| 0 <= j < |listing| && listing[j] == k;
      assert after[k] == dir[k];
      assert Load(op, after, k).result == Load(op, dir, k).result;
      assert vs[j] == Load(op, dir, k).result.value;
    }
  }

  /** The converse half of `WriteMultipleThenLoadAll`: what `load_all` yields comes from the batch or an untouched file. */
  lemma LoadAllAfterWriteMultipleOnly<R(!new), D(!new)>(op: Operator<R, D>, dir: Dir, es: seq<R>, listing: seq<Id>)
    requires JsonRoundTrips(op.json) && RecordRoundTrips(op.cls)
    requires DistinctIds(op, es)
    requires IsListing(WriteMultiple(op, dir, es).dir, listing)
    requires LoadAll(op, WriteMultiple(op, dir, es).dir, listing).result.Ok?
    ensures |LoadAll(op, WriteMultiple(op, dir, es).dir, listing).result.value| == |dir.Keys + IdSet(op, es)|
    ensures forall v :: v in LoadAll(op, WriteMultiple(op, dir, es).dir, listing).result.value ==>
      v in es || exists k :: k in dir && k !in IdSet(op, es) && Load(op, dir, k).result == Ok(v)
  {
    var after := WriteMultiple(op, dir, es).dir;
    var vs := LoadAll(op, after, listing).result.value;
    WriteMultipleKeys(op, dir, es);
    WriteMultipleUntouched(op, dir, es);
    WriteMultipleLastWins(op, dir, es);
    assert |after| == |after.Keys|;
    forall v | v in vs
      ensures v in es || exists k :: k in dir && k !in IdSet(op, es) && Load(op, dir, k).result == Ok(v)
    {
      var j :| 0 <= j < |vs| && vs[j] == v;
      var k := listing[j];
      assert Load(op, after, k).result == Ok(v);
      if k in IdSet(op, es) {
        var i :| 0 <= i < |es| && op.cls.id(es[i]) == k;
        assert LastWithId(op, es, i);
        DecodeEncode(op, k, es[i]);
      } else {
        assert after[k] == dir[k];
        assert Load(op, dir, k).result == Ok(v);
      }
    }
  }
}
