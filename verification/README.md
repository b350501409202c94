# DbClassOperator: a file-backed record store, modelled in Dafny

`DbClassOperator` stores the records of one `DbClass` subclass as files. The
collection folder is `folder/<class name>`. Each file in it is named by a
record's `_id` and holds `json.dumps(record.serialize())`. The store offers
`write`/`update`, `delete`/`delete_by_id`, `load`, `load_all`, and the batch
operations `load_multiple`/`write_multiple`.

The model is a pure state machine:

- The collection folder is a `map<Id, Text>` (`Dir`) from file name to file content.
- Every operation takes the folder contents and returns a `Step`: the contents
  afterwards, plus the operation's value or its error.
- The foreign collaborators are fields of the operator. These are `json.dumps`/`json.loads`
  (`Json<D>`) and the record class's `__name__`, `DbClass` subclass test, `_id`,
  `serialize` and `deserialize` (`RecordClass<R, D>`).
- Round trips through them are hypotheses (`JsonRoundTrips`, `RecordRoundTrips`)
  that the lemmas state as preconditions.
- The batch operations are sequential folds that build an index-aligned
  result sequence.

Files:

- `results.dfy`: `Option` and `Result`.
- `serialization.dfy`: the foreign collaborators and the round-trip hypotheses.
- `db_class_operator.dfy`: the operator, its operations and their contracts.
- `sequences.dfy`: a permutation fact about index-aligned sequences.
- `properties.dfy`: lemmas that relate several operations.

Error behaviour, as the code has it:

- `load` guards with `if not path`, but a `Path` object is always truthy. A missing id
  therefore fails when its file is read (`FileNotFound`), never with
  `NoSuchElement`. `Load`'s contract says both. `delete_by_id` is the only
  operation that raises `NoSuchElement`.
- Construction rejects a class that is not a `DbClass` subclass with a
  `ValueError` (`NotADbClass`), not a separate configuration error kind.
- A file that cannot be decoded fails with `InvalidJson` (JSON parsing) or
  `NotDeserializable` (`deserialize`). These are the two stages of `conv_to_dbclass`.

## Model

| member | source | states |
|---|---|---|
| DbClassOperator.New | json_file_db_operator/src/mongo_db_operator/DbClassOperator.py:13-19 | construction succeeds exactly when the class is a `DbClass`; otherwise it fails with a `ValueError` naming the class; on success the operator holds the given class and folder, and its collection folder is `folder / <class name>` |
| DbClassOperator.ConvToDbClass | json_file_db_operator/src/mongo_db_operator/DbClassOperator.py:68-71 | reading leaves the folder unchanged; a missing file fails with `FileNotFound`; an existing file that is not valid JSON fails with `InvalidJson`; a file that parses yields `deserialize(json.loads(text))`, or `NotDeserializable` when `deserialize` rejects it; an existing file never fails as not found; the only errors are not-found, invalid JSON and failed deserialization |
| DbClassOperator.Load | json_file_db_operator/src/mongo_db_operator/DbClassOperator.py:29-35 | leaves the folder unchanged; an absent id fails with `FileNotFound`; a present but corrupt file fails with `InvalidJson` or `NotDeserializable`, never `FileNotFound`; a present file that parses and deserializes loads successfully, and success yields exactly `deserialize(json.loads(text))` of the stored file; the only errors are not-found, invalid JSON and failed deserialization; `load` never raises `NoSuchElement` because its `if not path` guard cannot fire |
| DbClassOperator.Write | json_file_db_operator/src/mongo_db_operator/DbClassOperator.py:54-56 | returns the record itself; the record's id now maps to its encoding, whether or not it existed; every other file is unchanged and no file is added besides that one |
| DbClassOperator.Update | json_file_db_operator/src/mongo_db_operator/DbClassOperator.py:51-52 | `update` is exactly `write`, in both the result and the folder afterwards |
| DbClassOperator.DeleteById | json_file_db_operator/src/mongo_db_operator/DbClassOperator.py:24-27 | an absent id raises `NoSuchElement` and leaves the folder unchanged; a present id is removed and nothing else is; the folder only ever loses files |
| DbClassOperator.Delete | json_file_db_operator/src/mongo_db_operator/DbClassOperator.py:21-22 | `delete(e)` behaves exactly like `delete_by_id(e._id)`, for the error and for the folder afterwards |
| DbClassOperator.DecodeEncode | json_file_db_operator/src/mongo_db_operator/DbClassOperator.py:55-70 | the text `write` stores decodes, through `json.loads` and `deserialize`, back to the record when both layers round-trip |
| DbClassOperator.LoadMultiple | json_file_db_operator/src/mongo_db_operator/DbClassOperator.py:37-45 | leaves the folder unchanged; succeeds exactly when every single `load` succeeds; then the result has one entry per id and entry `i` is what `load(ids[i])` returns; otherwise the error is that of the first failing index |
| DbClassOperator.LoadAll | json_file_db_operator/src/mongo_db_operator/DbClassOperator.py:47-49 | for any listing of the folder, leaves the folder unchanged; succeeds exactly when every stored file loads; then it yields one record per stored file, the one `load` returns for the listed file name; a failed scan reports invalid JSON or failed deserialization, never a missing file, because it reads only listed files |
| DbClassOperator.WriteMultiple | json_file_db_operator/src/mongo_db_operator/DbClassOperator.py:58-66 | the result is the input batch itself, position by position |
| DbClassOperator.WriteMultipleKeys | json_file_db_operator/src/mongo_db_operator/DbClassOperator.py:58-66 | afterwards the folder holds exactly the files it held before plus one per id of the batch |
| DbClassOperator.WriteMultipleLastWins | json_file_db_operator/src/mongo_db_operator/DbClassOperator.py:58-66 | afterwards each id of the batch holds the encoding of the last record with that id |
| DbClassOperator.WriteMultipleUntouched | json_file_db_operator/src/mongo_db_operator/DbClassOperator.py:58-66 | every file whose id is not in the batch is still there with its old content |
| DbClassOperatorProperties.PathOfInjective | json_file_db_operator/src/mongo_db_operator/DbClassOperator.py:19-30 | different ids name different files of the collection folder, so keying the folder by id is faithful |
| DbClassOperatorProperties.CollectionsSeparate | json_file_db_operator/src/mongo_db_operator/DbClassOperator.py:13-19 | operators as construction leaves them, for two classes with different names under the same folder, never address the same file |
| DbClassOperatorProperties.WriteThenLoad | json_file_db_operator/src/mongo_db_operator/DbClassOperator.py:29-71 | after `write(e)`, `load(e._id)` yields `deserialize(serialize(e))` when JSON round-trips, and yields `e` when the record class round-trips too |
| DbClassOperatorProperties.WriteOverwrites | json_file_db_operator/src/mongo_db_operator/DbClassOperator.py:54-56 | writing two records with the same id gives the same folder as writing only the second: the first write leaves no trace, and only that one file name is added |
| DbClassOperatorProperties.DeleteUndoesWrite | json_file_db_operator/src/mongo_db_operator/DbClassOperator.py:24-56 | deleting a record just created under a fresh id succeeds and restores the folder exactly |
| DbClassOperatorProperties.DeleteThenLoad | json_file_db_operator/src/mongo_db_operator/DbClassOperator.py:24-35 | after a successful delete, loading that id fails with `FileNotFound` and deleting it again raises `NoSuchElement` |
| DbClassOperatorProperties.LoadMultipleReportsFirstFailure | json_file_db_operator/src/mongo_db_operator/DbClassOperator.py:37-45 | if index `i` is the first whose load fails, the whole batch fails with that load's error; a missing id there gives `FileNotFound` |
| DbClassOperatorProperties.WriteMultipleOrderIndependent | json_file_db_operator/src/mongo_db_operator/DbClassOperator.py:58-66 | writing a batch with pairwise-distinct ids, or any reordering of its records (again with distinct ids), leaves the same folder |
| DbClassOperatorProperties.WriteMultipleThenLoadMultiple | json_file_db_operator/src/mongo_db_operator/DbClassOperator.py:37-66 | with distinct ids and round-tripping encoders, `load_multiple` of the batch's ids after `write_multiple` returns the batch, in order |
| DbClassOperatorProperties.LoadAllListingIrrelevant | json_file_db_operator/src/mongo_db_operator/DbClassOperator.py:47-49 | any two listing orders of the folder give the same success and the same multiset of records |
| DbClassOperatorProperties.LoadAllYieldsStored | json_file_db_operator/src/mongo_db_operator/DbClassOperator.py:47-71 | with round-tripping encoders, a successful `load_all` yields every record whose encoding is stored under its own id |
| DbClassOperatorProperties.WriteMultipleThenLoadAll | json_file_db_operator/src/mongo_db_operator/DbClassOperator.py:47-66 | after `write_multiple` with distinct ids, a successful `load_all` yields every record of the batch and the record of every old file the batch did not overwrite, one record per file of old folder and batch together, and nothing besides batch records and loads of old files the batch did not overwrite |
| DbClassOperatorProperties.LoadAllAfterWriteMultipleOnly | json_file_db_operator/src/mongo_db_operator/DbClassOperator.py:47-66 | after `write_multiple` with distinct ids, a successful `load_all` has one record per file of old folder and batch together, and each is a batch record or the load of an old file outside the batch |

## Left out

- Threads. `load_multiple` and `write_multiple` start one thread per element. Each thread writes only its own result slot. The model runs the elements in index order, which gives the same index-aligned result.
- DbClassOperator.LoadMultiple: the source swallows a failing thread's exception and leaves the class placeholder `T` in that slot. The model fails the whole batch with the error of the first failing index instead. The all-succeed contract is the same in both.
- DbClassOperator.WriteMultiple: with two records of the same id in one batch, the source's threads race for the file. The model keeps the later record. Order independence is stated only for batches with distinct ids.
- DbClassOperator.LoadAll: the source returns a lazy one-shot `map` over `iterdir()`, which raises when iteration reaches an undecodable file. The model reads every entry eagerly and fails the whole scan in that case. The listing order is a parameter, because the filesystem chooses it.
- Filesystem-level failures are not modelled: permission errors, a missing collection folder, a full disk, write failures.
- DbClassOperator.Write: encoder failures are not modelled. `dumps` and `serialize` are total functions here, while the source's `json.dumps(element.serialize())` raises `TypeError` or `ValueError` on values JSON cannot encode, and `serialize` may raise too. So `write`, `update` and `write_multiple` never fail in the model.
- Paths are component sequences, and ids are opaque file names. Ids that `joinpath` does not turn into one file directly inside the collection folder are not modelled: ids containing separators or `..`, which resolve elsewhere, and the ids `""` and `"."`, which both name the collection folder itself. `PathOfInjective` holds only in this abstraction.
- `json.dumps`/`json.loads` and `seriattrs` `serialize`/`deserialize` are foreign libraries. They are function-valued parameters, and their round trips are lemma hypotheses.
- src/json_db_operator/MongoDbClassOperators.py builds MongoDB-backed operators from classes that are not part of this model. It is network plumbing with no store logic.
