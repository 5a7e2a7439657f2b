/** The four tables of the database as one value, and each SQL function of the API
    as a function from tables to tables. A failed call returns `Err` and no tables,
    which is PostgreSQL's rollback of the whole call. */
module Relations {
  import opened Base

  datatype Row = Row(hash: string, size: nat, mime: Mime)

  datatype Link = Link(bucketId: Uuid, objectId: Uuid)

  datatype Record = Record(id: Uuid, message: string)

  datatype Tables = Tables(
    buckets: map<Uuid, string>,
    objects: map<Uuid, Row>,
    links: set<Link>,
    errors: map<Uuid, string>)

  const EmptyTables := Tables(map[], map[], {}, map[])

  /** UNIQUE and REFERENCES, plus the fact that only non-empty messages are kept.
      The primary keys hold by the types: maps and a set. */
  ghost predicate Consistent(t: Tables) {
    && UniqueNames(t.buckets)
    && UniqueHashes(t.objects)
    && (forall l :: l in t.links ==> l.bucketId in t.buckets && l.objectId in t.objects)
    && (forall id :: id in t.errors ==> id in t.objects && t.errors[id] != "")
  }

  ghost predicate UniqueNames(buckets: map<Uuid, string>) {
    forall a, b :: a in buckets && b in buckets && buckets[a] == buckets[b] ==> a == b
  }

  ghost predicate UniqueHashes(objects: map<Uuid, Row>) {
    forall a, b :: a in objects && b in objects && objects[a].hash == objects[b].hash ==> a == b
  }

  // Views

  function LinksOf(t: Tables, bucket: Uuid): set<Link> {
    set l | l in t.links && l.bucketId == bucket
  }

  function LinksTo(t: Tables, objectId: Uuid): set<Link> {
    set l | l in t.links && l.objectId == objectId
  }

  function Contents(t: Tables, bucket: Uuid): set<Uuid> {
    set l | l in t.links && l.bucketId == bucket :: l.objectId
  }

  function ReferenceCount(t: Tables, objectId: Uuid): nat {
    |LinksTo(t, objectId)|
  }

  function Orphans(t: Tables): set<Uuid> {
    set o | o in t.objects && ReferenceCount(t, o) == 0
  }

  // Adding an object

  ghost predicate Known(objects: map<Uuid, Row>, hash: string) {
    exists o :: o in objects && objects[o].hash == hash
  }

  ghost function Owner(objects: map<Uuid, Row>, hash: string): Uuid
    requires Known(objects, hash)
  {
    var o :| o in objects && objects[o].hash == hash; o
  }

  datatype Added = Added(tables: Tables, objectId: Uuid)

  /** `add_object`: a known hash is linked to its owner; a new hash becomes a new row
      unless the proposed id is taken, in which case the link's object is NULL. */
  ghost function AddObject(t: Tables, bucket: Uuid, id: Uuid, row: Row): Result<Added> {
    if !Known(t.objects, row.hash) && id in t.objects then
      Err(NotNullViolation)
    else if bucket !in t.buckets then
      Err(ForeignKeyViolation)
    else if Known(t.objects, row.hash) then
      var owner := Owner(t.objects, row.hash);
      Ok(Added(t.(links := t.links + {Link(bucket, owner)}), owner))
    else
      Ok(Added(t.(objects := t.objects[id := row], links := t.links + {Link(bucket, id)}), id))
  }

  // Buckets

  /** `create_bucket`; `id` is the value of `gen_random_uuid()`. */
  ghost function CreateBucket(t: Tables, id: Uuid, name: string): Result<Tables> {
    if id in t.buckets || exists b :: b in t.buckets && t.buckets[b] == name then
      Err(UniqueViolation)
    else
      Ok(t.(buckets := t.buckets[id := name]))
  }

  /** `rename_bucket`: an UPDATE, so an unknown bucket is no error. */
  ghost function RenameBucket(t: Tables, id: Uuid, name: string): Result<Tables> {
    if id !in t.buckets then
      Ok(t)
    else if exists b :: b in t.buckets && b != id && t.buckets[b] == name then
      Err(UniqueViolation)
    else
      Ok(t.(buckets := t.buckets[id := name]))
  }

  /** `remove_bucket`, with the cascade to the bucket's links. */
  ghost function RemoveBucket(t: Tables, id: Uuid): Tables {
    t.(buckets := t.buckets - {id}, links := t.links - LinksOf(t, id))
  }

  // Removing objects

  ghost function RemoveObject(t: Tables, bucket: Uuid, objectId: Uuid): Result<Tables> {
    if Link(bucket, objectId) in t.links then
      Ok(t.(links := t.links - {Link(bucket, objectId)}))
    else
      Err(NotFound)
  }

  datatype Pruned = Pruned(tables: Tables, removed: map<Uuid, Row>)

  /** `remove_orphan_objects`, with the cascade to links and error records. */
  ghost function RemoveOrphans(t: Tables): Pruned {
    var gone := Orphans(t);
    Pruned(
      t.(objects := t.objects - gone,
         links := (set l | l in t.links && l.objectId !in gone),
         errors := t.errors - gone),
      map o | o in gone :: t.objects[o])
  }

  // Error records

  function Cleared(records: seq<Record>): set<Uuid> {
    set r | r in records && r.message == "" :: r.id
  }

  function Flagged(records: seq<Record>): seq<Record> {
    if records == [] then []
    else
      var last := records[|records| - 1];
      Flagged(records[..|records| - 1]) + (if last.message == "" then [] else [last])
  }

  function Upserted(errors: map<Uuid, string>, entries: seq<Record>): map<Uuid, string> {
    if entries == [] then errors
    else
      var last := entries[|entries| - 1];
      Upserted(errors, entries[..|entries| - 1])[last.id := last.message]
  }

  ghost predicate DistinctIds(records: seq<Record>) {
    forall i, j :: 0 <= i < j < |records| ==> records[i].id != records[j].id
  }

  /** `update_object_errors`: clear, then upsert. The upsert may not meet an id twice
      and may not name an object that does not exist. */
  ghost function UpdateErrors(t: Tables, records: seq<Record>): Result<Tables> {
    var flagged := Flagged(records);
    if !DistinctIds(flagged) then
      Err(CardinalityViolation)
    else if exists r :: r in flagged && r.id !in t.objects then
      Err(ForeignKeyViolation)
    else
      Ok(t.(errors := Upserted(t.errors - Cleared(records), flagged)))
  }
}
