/** What every SQL function keeps, and what the adding and removing calls do. */
module RelationLaws {
  import opened Base
  import opened Relations

  lemma OwnerIsUnique(objects: map<Uuid, Row>, id: Uuid)
    requires UniqueHashes(objects) && id in objects
    ensures Known(objects, objects[id].hash)
    ensures Owner(objects, objects[id].hash) == id
  {
  }

  /** The rows that `add_object` returns: the bucket's contents having the hash. */
  function Returned(t: Tables, bucket: Uuid, hash: string): set<Uuid> {
    set l | l in t.links && l.bucketId == bucket && l.objectId in t.objects && t.objects[l.objectId].hash == hash
        :: l.objectId
  }

  /** All cases of (id known) x (hash known) x (bucket exists). */
  lemma AddObjectCases(t: Tables, bucket: Uuid, id: Uuid, row: Row)
    requires Consistent(t)
    ensures AddObject(t, bucket, id, row).Ok? <==>
            bucket in t.buckets && (Known(t.objects, row.hash) || id !in t.objects)
    ensures AddObject(t, bucket, id, row).Err? ==>
            AddObject(t, bucket, id, row).error ==
              if id in t.objects && !Known(t.objects, row.hash) then NotNullViolation else ForeignKeyViolation
    ensures AddObject(t, bucket, id, row).Ok? ==>
            var Added(t', o) := AddObject(t, bucket, id, row).value;
            && Consistent(t')
            && Returned(t', bucket, row.hash) == {o}
            && t'.buckets == t.buckets && t'.errors == t.errors
            && t'.links == t.links + {Link(bucket, o)}
            && t'.objects == (if Known(t.objects, row.hash) then t.objects else t.objects[id := row])
            && t'.objects[o].hash == row.hash
            && (!Known(t.objects, row.hash) ==> o == id)
            && (o == id || o in t.objects)
  {
    if AddObject(t, bucket, id, row).Ok? {
      var Added(t', o) := AddObject(t, bucket, id, row).value;
      assert Consistent(t');
      assert Link(bucket, o) in t'.links;
      forall p | p in Returned(t', bucket, row.hash) ensures p == o { }
      assert o in Returned(t', bucket, row.hash);
    }
  }

  /** Adding the same content again changes nothing. */
  lemma AddObjectAgain(t: Tables, bucket: Uuid, id: Uuid, again: Uuid, row: Row)
    requires Consistent(t) && AddObject(t, bucket, id, row).Ok?
    ensures var added := AddObject(t, bucket, id, row).value;
            AddObject(added.tables, bucket, again, row) == Ok(added)
  {
    AddObjectCases(t, bucket, id, row);
    var Added(t', o) := AddObject(t, bucket, id, row).value;
    OwnerIsUnique(t'.objects, o);
    assert t'.links + {Link(bucket, o)} == t'.links;
  }

  lemma {:induction false} FlaggedMembers(records: seq<Record>)
    ensures forall r :: r in Flagged(records) <==> r in records && r.message != ""
  {
    if records != [] {
      var init := records[..|records| - 1];
      FlaggedMembers(init);
      assert forall r :: r in records <==> r == records[|records| - 1] || r in init;
    }
  }

  lemma {:induction false} FlaggedDistinct(records: seq<Record>)
    requires DistinctIds(records)
    ensures DistinctIds(Flagged(records))
  {
    if records != [] {
      FlaggedDistinct(records[..|records| - 1]);
      FlaggedMembers(records[..|records| - 1]);
    }
  }

  function Ids(records: seq<Record>): set<Uuid> {
    set r | r in records :: r.id
  }

  /** One more record, seen by each function of a batch. */
  lemma OneMore(records: seq<Record>, record: Record, errors: map<Uuid, string>)
    ensures Flagged(records + [record]) == Flagged(records) + (if record.message == "" then [] else [record])
    ensures Upserted(errors, records + [record]) == Upserted(errors, records)[record.id := record.message]
    ensures Ids(records + [record]) == Ids(records) + {record.id}
    ensures DistinctIds(records + [record]) <==> DistinctIds(records) && record.id !in Ids(records)
  {
    var more := records + [record];
    assert more[..|records|] == records;
    assert forall r :: r in more <==> r in records || r == record;
    if DistinctIds(more) {
      forall i, j | 0 <= i < j < |records| ensures records[i].id != records[j].id {
        assert more[i].id != more[j].id;
      }
      forall i | 0 <= i < |records| ensures records[i].id != record.id {
        assert more[i].id != more[|records|].id;
      }
    }
  }

  ghost predicate Mentions(records: seq<Record>, id: Uuid) {
    exists r :: r in records && r.id == id
  }

  /** The error table says about an object what a record about it says. */
  ghost predicate Reported(errors: map<Uuid, string>, id: Uuid, message: string) {
    if message == "" then id !in errors else id in errors && errors[id] == message
  }

  ghost predicate SameEntry(errors: map<Uuid, string>, errors': map<Uuid, string>, id: Uuid) {
    (id in errors <==> id in errors') && (id in errors ==> errors[id] == errors'[id])
  }

  lemma {:induction false} UpsertedLookup(errors: map<Uuid, string>, entries: seq<Record>)
    ensures var after := Upserted(errors, entries);
            && (forall id :: !Mentions(entries, id) ==> SameEntry(errors, after, id))
            && (forall id :: Mentions(entries, id) ==> id in after && Record(id, after[id]) in entries)
    ensures DistinctIds(entries) ==> forall r :: r in entries ==> Upserted(errors, entries)[r.id] == r.message
  {
    if entries != [] {
      var init, last := entries[..|entries| - 1], entries[|entries| - 1];
      UpsertedLookup(errors, init);
      assert forall r :: r in entries <==> r in init || r == last;
      assert last == Record(last.id, last.message);
      forall id ensures Mentions(entries, id) <==> Mentions(init, id) || id == last.id {
        if Mentions(entries, id) {
          var r :| r in entries && r.id == id;
          assert r in init || r == last;
        }
      }
      forall r | r in init ensures Mentions(init, r.id) { }
    }
  }

  /** A batch of records about distinct, stored objects is always accepted, and the
      table then holds exactly the batch's verdict on the batch's ids. */
  lemma UpdateErrorsExact(t: Tables, records: seq<Record>)
    requires DistinctIds(records)
    requires forall r :: r in records ==> r.id in t.objects
    ensures UpdateErrors(t, records).Ok?
    ensures var t' := UpdateErrors(t, records).value;
            && t' == t.(errors := t'.errors)
            && (forall r :: r in records ==> Reported(t'.errors, r.id, r.message))
            && (forall id :: !Mentions(records, id) ==> SameEntry(t.errors, t'.errors, id))
  {
    FlaggedMembers(records);
    FlaggedDistinct(records);
    UpsertedLookup(t.errors - Cleared(records), Flagged(records));
    var t' := UpdateErrors(t, records).value;
    forall r | r in records ensures Reported(t'.errors, r.id, r.message) {
      if r.message == "" {
        assert r.id in Cleared(records);
        assert Mentions(Flagged(records), r.id) ==> exists f :: f in records && f.id == r.id && f.message != "";
        assert SameEntry(t.errors - Cleared(records), t'.errors, r.id);
      } else {
        assert r in Flagged(records) && Mentions(Flagged(records), r.id);
      }
    }
    forall id | !Mentions(records, id) ensures SameEntry(t.errors, t'.errors, id) {
      assert !Mentions(Flagged(records), id) && id !in Cleared(records);
    }
  }

  /** Exactly which batches the database refuses. */
  lemma UpdateErrorsRefused(t: Tables, records: seq<Record>)
    ensures UpdateErrors(t, records).Ok? <==>
            && DistinctIds(Flagged(records))
            && (forall r :: r in records && r.message != "" ==> r.id in t.objects)
    ensures UpdateErrors(t, records).Err? ==>
            UpdateErrors(t, records).error ==
              if DistinctIds(Flagged(records)) then ForeignKeyViolation else CardinalityViolation
  {
    FlaggedMembers(records);
  }

  /** What any accepted batch does: failing records are written, also where the batch clears
      the same object, and what is only cleared is gone. */
  lemma UpdateErrorsOutcome(t: Tables, records: seq<Record>)
    requires UpdateErrors(t, records).Ok?
    ensures var t' := UpdateErrors(t, records).value;
            && t' == t.(errors := t'.errors)
            && (forall r :: r in records && r.message != "" ==> r.id in t'.errors && t'.errors[r.id] == r.message)
            && (forall r :: r in records && r.message == "" && r.id in t'.errors ==>
                  Record(r.id, t'.errors[r.id]) in records)
            && (forall id :: !Mentions(records, id) ==> SameEntry(t.errors, t'.errors, id))
  {
    FlaggedMembers(records);
    UpsertedLookup(t.errors - Cleared(records), Flagged(records));
    var t' := UpdateErrors(t, records).value;
    forall r | r in records && r.message != "" ensures r.id in t'.errors && t'.errors[r.id] == r.message {
      assert r in Flagged(records) && Mentions(Flagged(records), r.id);
    }
    forall r | r in records && r.message == "" && r.id in t'.errors ensures Record(r.id, t'.errors[r.id]) in records {
      assert r.id in Cleared(records);
      assert Mentions(Flagged(records), r.id) || SameEntry(t.errors - Cleared(records), t'.errors, r.id);
    }
    forall id | !Mentions(records, id) ensures SameEntry(t.errors, t'.errors, id) {
      assert !Mentions(Flagged(records), id) && id !in Cleared(records);
    }
  }

  lemma NamingKeeps(t: Tables, id: Uuid, name: string)
    requires Consistent(t)
    ensures CreateBucket(t, id, name).Ok? ==> Consistent(CreateBucket(t, id, name).value)
    ensures RenameBucket(t, id, name).Ok? ==> Consistent(RenameBucket(t, id, name).value)
  {
  }

  lemma FewerLinksKeep(t: Tables, buckets: set<Uuid>, links: set<Link>)
    requires Consistent(t) && links <= t.links
    requires forall l :: l in links ==> l.bucketId !in buckets
    ensures Consistent(t.(buckets := t.buckets - buckets, links := links))
  {
  }

  lemma UpdateErrorsKeeps(t: Tables, records: seq<Record>)
    requires Consistent(t) && UpdateErrors(t, records).Ok?
    ensures Consistent(UpdateErrors(t, records).value)
  {
    FlaggedMembers(records);
    UpsertedLookup(t.errors - Cleared(records), Flagged(records));
    var t' := UpdateErrors(t, records).value;
    forall id | id in t'.errors ensures id in t.objects && t'.errors[id] != "" {
      assert Mentions(Flagged(records), id) || SameEntry(t.errors - Cleared(records), t'.errors, id);
    }
  }
}
