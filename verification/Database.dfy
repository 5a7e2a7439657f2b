/** The database object: each SQL function as the statements it runs, in order, with the
    rollback of a failed call written out. */
module Database {
  import opened Base
  import opened Sums
  import R = Relations
  import opened RelationLaws
  import Accounting
  import C = Calls

  class Database {
    var buckets: map<Uuid, string>
    var objects: map<Uuid, R.Row>
    var links: set<R.Link>
    var errors: map<Uuid, string>

    ghost function Tables(): R.Tables
      reads this
    {
      R.Tables(buckets, objects, links, errors)
    }

    ghost predicate Valid()
      reads this
    {
      R.Consistent(Tables())
    }

    constructor ()
      ensures Valid() && Tables() == R.EmptyTables
    {
      buckets, objects, links, errors := map[], map[], {}, map[];
    }

    /** INSERT ... ON CONFLICT DO NOTHING, then SELECT by checksum: NULL when the id is
        taken and the checksum is new. */
    method CreateObject(id: Uuid, row: R.Row) returns (owner: Option<Uuid>)
      requires Valid()
      modifies this`objects
      ensures Valid()
      ensures objects == if R.Known(old(objects), row.hash) || id in old(objects) then old(objects)
                         else old(objects)[id := row]
      ensures owner == if R.Known(objects, row.hash) then Some(R.Owner(objects, row.hash)) else None
      ensures owner.Some? <==> R.Known(old(objects), row.hash) || id !in old(objects)
    {
      var conflict := id in objects || exists o :: o in objects && objects[o].hash == row.hash;
      if !conflict {
        objects := objects[id := row];
        assert objects[id].hash == row.hash;
      }
      if exists o :: o in objects && objects[o].hash == row.hash {
        var o :| o in objects && objects[o].hash == row.hash;
        OwnerIsUnique(objects, o);
        owner := Some(o);
      } else {
        owner := None;
      }
    }

    /** The insert of the link, and the query for the rows to return. */
    method AddObject(bucket: Uuid, id: Uuid, row: R.Row) returns (result: Result<Uuid>)
      requires Valid()
      modifies this
      ensures Valid()
      ensures match R.AddObject(old(Tables()), bucket, id, row)
              case Ok(added) => result == Ok(added.objectId) && Tables() == added.tables
              case Err(e) => result == Err(e) && Tables() == old(Tables())
      ensures Tables() == C.Execute(old(Tables()), C.Add(bucket, id, row))
    {
      AddObjectCases(Tables(), bucket, id, row);
      var savepoint := objects;
      var owner := CreateObject(id, row);
      match owner
      case None =>
        result := Err(NotNullViolation);
      case Some(o) =>
        if bucket !in buckets {
          objects := savepoint;
          return Err(ForeignKeyViolation);
        }
        links := links + {R.Link(bucket, o)};
        var rows := Returned(R.Tables(buckets, objects, links, errors), bucket, row.hash);
        assert rows == {o};
        var returned :| returned in rows;
        result := Ok(returned);
    }

    method CreateBucket(id: Uuid, name: string) returns (result: Result<()>)
      requires Valid()
      modifies this`buckets
      ensures Valid()
      ensures match R.CreateBucket(old(Tables()), id, name)
              case Ok(t) => result == Ok(()) && Tables() == t
              case Err(e) => result == Err(e) && Tables() == old(Tables())
      ensures Tables() == C.Execute(old(Tables()), C.Client(C.NewBucket(id, name)))
    {
      NamingKeeps(Tables(), id, name);
      if id in buckets || exists b :: b in buckets && buckets[b] == name {
        return Err(UniqueViolation);
      }
      buckets := buckets[id := name];
      result := Ok(());
    }

    method RenameBucket(id: Uuid, name: string) returns (result: Result<()>)
      requires Valid()
      modifies this`buckets
      ensures Valid()
      ensures match R.RenameBucket(old(Tables()), id, name)
              case Ok(t) => result == Ok(()) && Tables() == t
              case Err(e) => result == Err(e) && Tables() == old(Tables())
      ensures Tables() == C.Execute(old(Tables()), C.Client(C.Rename(id, name)))
    {
      NamingKeeps(Tables(), id, name);
      if id in buckets {
        if exists b :: b in buckets && b != id && buckets[b] == name {
          return Err(UniqueViolation);
        }
        buckets := buckets[id := name];
      }
      result := Ok(());
    }

    method RemoveBucket(id: Uuid)
      requires Valid()
      modifies this`buckets, this`links
      ensures Valid() && Tables() == R.RemoveBucket(old(Tables()), id)
      ensures Tables() == C.Execute(old(Tables()), C.Client(C.DropBucket(id)))
    {
      buckets := buckets - {id};
      links := set l | l in links && l.bucketId != id;
      assert links == old(links) - R.LinksOf(old(Tables()), id);
    }

    method RemoveObject(bucket: Uuid, objectId: Uuid) returns (result: Result<R.Row>)
      requires Valid()
      modifies this`links
      ensures Valid()
      ensures match R.RemoveObject(old(Tables()), bucket, objectId)
              case Ok(t) => Tables() == t && objectId in objects && result == Ok(objects[objectId])
              case Err(e) => result == Err(e) && Tables() == old(Tables())
      ensures Tables() == C.Execute(old(Tables()), C.Client(C.Detach(bucket, objectId)))
    {
      if R.Link(bucket, objectId) !in links {
        return Err(NotFound);
      }
      links := links - {R.Link(bucket, objectId)};
      result := Ok(objects[objectId]);
    }

    /** sum(size) over the given objects. */
    method SumSizes(ids: set<Uuid>) returns (total: nat)
      requires ids <= objects.Keys
      ensures total == Sum(ids, Accounting.SizeIn(objects))
    {
      total := 0;
      var rest := ids;
      while rest != {}
        invariant rest <= ids
        invariant total + Sum(rest, Accounting.SizeIn(objects)) == Sum(ids, Accounting.SizeIn(objects))
        decreases |rest|
      {
        var id :| id in rest;
        SumRemove(rest, Accounting.SizeIn(objects), id);
        total := total + objects[id].size;
        rest := rest - {id};
      }
    }

    method FetchStoreTotals() returns (result: Result<Accounting.StoreTotals>)
      ensures result == Accounting.FetchStoreTotals(Tables())
    {
      var total := SumSizes(objects.Keys);
      result := match ToBigint(total)
                case Ok(n) => Ok(Accounting.StoreTotals(|buckets|, |objects|, n))
                case Err(e) => Err(e);
    }

    method RemoveObjects(bucket: Uuid, ids: seq<Uuid>) returns (result: Result<Accounting.RemoveResult>)
      requires Valid()
      modifies this`links
      ensures Valid()
      ensures match Accounting.RemoveObjects(old(Tables()), bucket, ids)
              case Ok(removal) => result == Ok(removal.removed) && Tables() == removal.tables
              case Err(e) => result == Err(e) && Tables() == old(Tables())
      ensures Tables() == C.Execute(old(Tables()), C.Client(C.DetachAll(bucket, ids)))
    {
      var deleted := set l | l in links && l.bucketId == bucket && l.objectId in ids;
      var gone := set l | l in deleted :: l.objectId;
      assert gone == Accounting.Held(Tables(), bucket, ids) by {
        forall o | o in Accounting.Held(Tables(), bucket, ids) ensures o in gone {
          assert R.Link(bucket, o) in deleted;
        }
      }
      var freed := SumSizes(gone);
      match ToBigint(freed)
      case Err(e) => result := Err(e);
      case Ok(n) =>
        links := links - deleted;
        assert links == Accounting.Unlink(old(Tables()), bucket, gone).links;
        result := Ok(Accounting.RemoveResult(|gone|, n));
    }

    /** DELETE ... RETURNING of the unreferenced objects, with its cascades. */
    method RemoveOrphanObjects() returns (removed: map<Uuid, R.Row>)
      requires Valid()
      modifies this`objects, this`links, this`errors
      ensures Valid() && R.RemoveOrphans(old(Tables())) == R.Pruned(Tables(), removed)
      ensures Tables() == C.Execute(old(Tables()), C.Prune)
    {
      Accounting.PruneExact(Tables());
      var gone := set o | o in objects && forall l :: l in links ==> l.objectId != o;
      assert gone == R.Orphans(Tables()) by {
        forall o | o in objects
          ensures (forall l :: l in links ==> l.objectId != o) <==> R.ReferenceCount(Tables(), o) == 0
        {
          if l :| l in links && l.objectId == o {
            assert l in R.LinksTo(Tables(), o);
          }
        }
      }
      removed := map o | o in gone :: objects[o];
      objects := objects - gone;
      links := set l | l in links && l.objectId !in gone;
      errors := errors - gone;
    }

    /** INSERT ... ON CONFLICT (object_id) DO UPDATE, one entry after another; an id met
        twice and an id without an object are errors. */
    static method Upsert(stored: set<Uuid>, errors: map<Uuid, string>, entries: seq<R.Record>)
      returns (result: Result<map<Uuid, string>>)
      ensures result.Ok? <==> R.DistinctIds(entries) && Ids(entries) <= stored
      ensures result.Ok? ==> result.value == R.Upserted(errors, entries)
      ensures result.Err? ==>
              result.error == if R.DistinctIds(entries) then ForeignKeyViolation else CardinalityViolation
    {
      var written := errors;
      var touched: set<Uuid> := {};
      for i := 0 to |entries|
        invariant R.DistinctIds(entries[..i])
        invariant touched == Ids(entries[..i])
        invariant written == R.Upserted(errors, entries[..i])
      {
        var entry := entries[i];
        NextEntry(errors, entries, i);
        if entry.id in touched {
          return Err(CardinalityViolation);
        }
        touched := touched + {entry.id};
        written := written[entry.id := entry.message];
      }
      assert entries[..|entries|] == entries;
      result := if touched <= stored then Ok(written) else Err(ForeignKeyViolation);
    }

    static lemma NextEntry(errors: map<Uuid, string>, entries: seq<R.Record>, i: nat)
      requires i < |entries|
      ensures R.Upserted(errors, entries[..i + 1])
           == R.Upserted(errors, entries[..i])[entries[i].id := entries[i].message]
      ensures Ids(entries[..i + 1]) == Ids(entries[..i]) + {entries[i].id}
      ensures R.DistinctIds(entries[..i]) && entries[i].id !in Ids(entries[..i]) ==> R.DistinctIds(entries[..i + 1])
      ensures entries[i].id in Ids(entries[..i]) ==> !R.DistinctIds(entries)
    {
      OneMore(entries[..i], entries[i], errors);
      assert entries[..i + 1] == entries[..i] + [entries[i]];
      if r :| r in entries[..i] && r.id == entries[i].id {
        var j :| 0 <= j < i && entries[j] == r;
        assert entries[j].id == entries[i].id;
      }
    }

    /** The DELETE of the cleared records, then the upsert. */
    method UpdateObjectErrors(records: seq<R.Record>) returns (result: Result<()>)
      requires Valid()
      modifies this`errors
      ensures Valid()
      ensures match R.UpdateErrors(old(Tables()), records)
              case Ok(t) => result == Ok(()) && Tables() == t
              case Err(e) => result == Err(e) && Tables() == old(Tables())
      ensures Tables() == C.Execute(old(Tables()), C.Report(records))
    {
      var kept := errors - (set r | r in records && r.message == "" :: r.id);
      var written := Upsert(objects.Keys, kept, R.Flagged(records));
      assert Ids(R.Flagged(records)) <= objects.Keys
        <==> !exists r :: r in R.Flagged(records) && r.id !in objects;
      match written
      case Err(e) => result := Err(e);
      case Ok(table) =>
        UpdateErrorsKeeps(Tables(), records);
        errors := table;
        result := Ok(());
    }
  }
}
