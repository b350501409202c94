/**
 The foreign collaborators of the store, kept abstract: the `json` module's
 `dumps`/`loads` pair and the `seriattrs` capabilities of a record class.
 D is the dictionary representation that `serialize` produces and `deserialize`
 consumes; R is the record type.
 */
module Serialization {
  import opened Results

  /** A record identifier; it is used as the file name inside the collection folder. */
  type Id = string

  /** The text content of one file. */
  type Text = string

  /** `json.dumps` and `json.loads`; `loads` rejects text that is not valid JSON. */
  datatype Json<!D> = Json(dumps: D -> Text, loads: Text -> Option<D>)

  /**
   A record class as the store sees it: its `__name__`, whether it is a subclass
   of `DbClass`, the `_id` of an instance, and the `serialize`/`deserialize` pair
   (`deserialize` may reject a dictionary).
   */
  datatype RecordClass<!R, !D> = RecordClass(
    name: string,
    isDbClass: bool,
    id: R -> Id,
    serialize: R -> D,
    deserialize: D -> Option<R>)

  /** Hypothesis: `loads` reads back whatever `dumps` wrote. */
  ghost predicate JsonRoundTrips<D(!new)>(json: Json<D>) {
    forall d :: json.loads(json.dumps(d)) == Some(d)
  }

  /** Hypothesis: `deserialize` rebuilds every record from its own serialization. */
  ghost predicate RecordRoundTrips<R(!new), D>(cls: RecordClass<R, D>) {
    forall r :: cls.deserialize(cls.serialize(r)) == Some(r)
  }
}
