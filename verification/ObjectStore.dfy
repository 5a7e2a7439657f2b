/** The object store itself: each operation as its database and file steps, proved to be
    the operation of the model in module `Store`. */
module ObjectStore {
  import opened Base
  import R = Relations
  import opened Checking
  import S = Store
  import A = Accounting
  import D = Database
  import F = Filesystem
  import C = Checker
  import T = Text
  import Calls

  class ObjectStore {
    const probe: Probe
    const database: D.Database
    const filesystem: F.FileStore

    ghost function State(): S.Store
      reads database, filesystem
    {
      S.Store(database.Tables(), filesystem.objects, filesystem.parts)
    }

    ghost predicate Valid()
      reads database, filesystem
    {
      database.Valid() && filesystem.Valid()
    }

    constructor (probe: Probe)
      ensures Valid() && State() == S.EmptyStore && this.probe == probe
      ensures fresh(database) && fresh(filesystem)
    {
      this.probe := probe;
      database := new D.Database();
      filesystem := new F.FileStore();
    }

    /** `get_part` and one write through the part it opens. */
    method WritePart(part: Uuid, data: Bytes)
      requires Valid()
      modifies filesystem
      ensures Valid() && State() == S.WritePart(old(State()), part, data)
      ensures State() == S.Apply(probe, old(State()), S.Append(part, data))
    {
      filesystem.GetPart(part);
      filesystem.Write(part, data);
      assert filesystem.parts == F.Received(old(filesystem.parts), part, data);
    }

    /** `commit_part`. A failed call changes neither the database nor the files. */
    method CommitPart(bucket: Uuid, part: Uuid) returns (result: Result<Uuid>)
      requires Valid()
      modifies database, filesystem
      ensures Valid()
      ensures match S.CommitPart(probe, old(State()), bucket, part)
              case Ok(commit) => result == Ok(commit.objectId) && State() == commit.store
              case Err(e) => result == Err(e) && State() == old(State())
      ensures State() == S.Apply(probe, old(State()), S.Finish(bucket, part))
    {
      var file := filesystem.ReadPart(part);
      if file.None? {
        return Err(PartMissing);
      }
      var row := S.Describe(probe, file.value);
      result := database.AddObject(bucket, part, row);
      if result.Ok? {
        if result.value != part {
          filesystem.RemovePart(part);
        } else {
          var made := filesystem.MakeObject(part);
        }
      }
    }

    /** `prune`: the rows first, then the files one by one. */
    method Prune() returns (orphans: map<Uuid, R.Row>)
      requires Valid()
      modifies database, filesystem
      ensures Valid() && State() == S.PruneStore(old(State()))
      ensures orphans == R.RemoveOrphans(old(database.Tables())).removed
      ensures State() == S.Apply(probe, old(State()), S.Sweep)
    {
      orphans := database.RemoveOrphanObjects();
      RemoveFiles(orphans.Keys);
    }

    /** The loop over the pruned objects' files. */
    method RemoveFiles(ids: set<Uuid>)
      requires filesystem.Valid()
      modifies filesystem
      ensures filesystem.Valid() && filesystem.parts == old(filesystem.parts)
      ensures filesystem.objects == old(filesystem.objects) - ids
    {
      var rest := ids;
      while rest != {}
        invariant rest <= ids && filesystem.Valid() && filesystem.parts == old(filesystem.parts)
        invariant filesystem.objects == old(filesystem.objects) - (ids - rest)
        decreases |rest|
      {
        var id :| id in rest;
        filesystem.Remove(id);
        assert ids - (rest - {id}) == ids - rest + {id};
        rest := rest - {id};
      }
      assert ids - rest == ids;
    }

    /** `create_bucket`, after `process_bucket_name`. */
    method CreateBucket(id: Uuid, name: string) returns (result: Result<()>)
      requires Valid()
      modifies database
      ensures Valid()
      ensures T.Trim(name) == "" ==> result == Err(EmptyName) && State() == old(State())
      ensures T.Trim(name) != "" ==>
              match R.CreateBucket(old(State().tables), id, T.Trim(name))
              case Ok(t) => result == Ok(()) && State() == old(State()).(tables := t)
              case Err(e) => result == Err(e) && State() == old(State())
      ensures T.Trim(name) != "" ==>
                State() == S.Apply(probe, old(State()), S.Change(Calls.NewBucket(id, T.Trim(name))))
    {
      var trimmed := T.Trim(name);
      if trimmed == "" {
        return Err(EmptyName);
      }
      result := database.CreateBucket(id, trimmed);
    }

    /** `rename_bucket`, after `process_bucket_name`. */
    method RenameBucket(id: Uuid, name: string) returns (result: Result<()>)
      requires Valid()
      modifies database
      ensures Valid()
      ensures T.Trim(name) == "" ==> result == Err(EmptyName) && State() == old(State())
      ensures T.Trim(name) != "" ==>
              match R.RenameBucket(old(State().tables), id, T.Trim(name))
              case Ok(t) => result == Ok(()) && State() == old(State()).(tables := t)
              case Err(e) => result == Err(e) && State() == old(State())
      ensures T.Trim(name) != "" ==>
                State() == S.Apply(probe, old(State()), S.Change(Calls.Rename(id, T.Trim(name))))
    {
      var trimmed := T.Trim(name);
      if trimmed == "" {
        return Err(EmptyName);
      }
      result := database.RenameBucket(id, trimmed);
    }

    method RemoveBucket(id: Uuid)
      requires Valid()
      modifies database
      ensures Valid() && State() == S.Apply(probe, old(State()), S.Change(Calls.DropBucket(id)))
    {
      database.RemoveBucket(id);
    }

    /** `remove_object`, which returns the row that was unlinked. */
    method RemoveObject(bucket: Uuid, id: Uuid) returns (result: Result<R.Row>)
      requires Valid()
      modifies database
      ensures Valid() && State() == S.Apply(probe, old(State()), S.Change(Calls.Detach(bucket, id)))
      ensures if R.Link(bucket, id) in old(database.links) then
                id in database.objects && result == Ok(database.objects[id])
              else
                result == Err(NotFound)
    {
      result := database.RemoveObject(bucket, id);
    }

    /** `remove_objects`, which returns what the bucket has lost. */
    method RemoveObjects(bucket: Uuid, ids: seq<Uuid>) returns (result: Result<A.RemoveResult>)
      requires Valid()
      modifies database
      ensures Valid() && State() == S.Apply(probe, old(State()), S.Change(Calls.DetachAll(bucket, ids)))
      ensures result == match A.RemoveObjects(old(database.Tables()), bucket, ids)
                        case Ok(removal) => Ok(removal.removed)
                        case Err(e) => Err(e)
    {
      result := database.RemoveObjects(bucket, ids);
    }

    /** `get_object`: the row through the bucket, then the file. */
    method GetObject(bucket: Uuid, id: Uuid) returns (result: Result<S.Download>)
      requires Valid()
      ensures result == S.GetObject(State(), bucket, id)
    {
      if R.Link(bucket, id) !in database.links {
        return Err(NotFound);
      }
      var file := filesystem.ReadObject(id);
      result := match file
                case None => Err(FileMissing)
                case Some(data) => Ok(S.Download(database.objects[id], data));
    }

    /** `check`, for a portal of any order and any exceptions in reading. It changes only the error records, and leaves
        there what the checks of all objects say. It starts by fetching the totals, and
        does nothing when these cannot be reported. */
    method Check(batchSize: nat, progress: C.CheckProgress, faults: map<Uuid, Option<string>>) returns (result: Result<()>)
      requires Valid() && batchSize >= 1
      modifies database, progress
      ensures Valid()
      ensures result.Ok? <==> A.FetchStoreTotals(old(database.Tables())).Ok?
      ensures result.Err? ==> State() == old(State())
      ensures result.Ok? ==>
              && State() == S.CheckStore(probe, old(State()), faults)
              && progress.total == |database.objects|
              && progress.Completed() == old(progress.Completed()) + progress.total
              && progress.errors == old(progress.errors) + |database.errors|
      ensures result.Ok? ==>
              forall id :: id in database.objects && id !in faults ==>
                && (id in database.errors <==>
                      id !in filesystem.objects || probe.hash(filesystem.objects[id]) != database.objects[id].hash)
                && (id in database.errors ==>
                      database.errors[id] == if id in filesystem.objects then "hash mismatch" else "file missing")
      ensures result.Ok? ==>
              forall id :: id in database.objects && id in faults ==>
                && (id in database.errors <==> faults[id] != Some(""))
                && (id in database.errors ==>
                      database.errors[id] == if faults[id].Some? then faults[id].value else "unknown error")
      ensures result.Ok? ==> database.errors.Keys <= database.objects.Keys
    {
      var totals := database.FetchStoreTotals();
      if totals.Err? {
        return Err(totals.error);
      }
      progress.total := totals.value.objects;
      CheckStored(batchSize, progress, faults);
      S.CheckSaysAll(probe, old(State()), faults);
      result := Ok(());
    }

    /** The check proper, of all stored objects. */
    method CheckStored(batchSize: nat, progress: C.CheckProgress, faults: map<Uuid, Option<string>>)
      requires Valid() && batchSize >= 1
      modifies database`errors, progress`success, progress`errors
      ensures Valid() && State() == S.CheckStore(probe, old(State()), faults)
      ensures State() == S.Apply(probe, old(State()), S.Check(faults))
      ensures progress.Completed() == old(progress.Completed()) + |database.objects|
      ensures progress.errors == old(progress.errors) + |database.errors|
    {
      var ids := Enumerate(database.objects.Keys);
      var disk := ReadAll(faults);
      RunCheck(disk, ids, batchSize, progress);
    }

    /** The pipeline over the given files, in the given order of rows. */
    method RunCheck(disk: map<Uuid, FileState>, ids: seq<Uuid>, batchSize: nat, progress: C.CheckProgress)
      requires database.Valid() && batchSize >= 1 && database.objects.Keys <= disk.Keys
      requires forall id :: id in ids <==> id in database.objects
      requires forall i, j :: 0 <= i < j < |ids| ==> ids[i] != ids[j]
      modifies database`errors, progress`success, progress`errors
      ensures database.Valid()
      ensures database.Tables() == old(database.Tables()).(
                errors := Failures(old(database.objects), Verdicts(probe, disk, old(database.objects))))
      ensures progress.Completed() == old(progress.Completed()) + |database.objects|
      ensures progress.errors == old(progress.errors) + |database.errors|
    {
      var run := new C.CheckRun(probe, disk, ids, batchSize, database, progress);
      run.Run();
    }

    /** The ids in some order, each once. */
    static method Enumerate(all: set<Uuid>) returns (ids: seq<Uuid>)
      ensures forall id :: id in ids <==> id in all
      ensures forall i, j :: 0 <= i < j < |ids| ==> ids[i] != ids[j]
    {
      ids := [];
      var rest := all;
      while rest != {}
        invariant rest <= all && forall id :: id in all <==> id in ids || id in rest
        invariant forall i :: 0 <= i < |ids| ==> ids[i] !in rest
        invariant forall i, j :: 0 <= i < j < |ids| ==> ids[i] != ids[j]
        decreases |rest|
      {
        var id :| id in rest;
        ids, rest := ids + [id], rest - {id};
      }
    }

    /** What reading each stored object's file comes to. */
    method ReadAll(faults: map<Uuid, Option<string>>) returns (disk: map<Uuid, FileState>)
      requires Valid()
      ensures disk == Disk(database.objects.Keys, filesystem.objects, faults)
    {
      disk := map[];
      ghost var all := Disk(database.objects.Keys, filesystem.objects, faults);
      var rest := database.objects.Keys;
      while rest != {}
        invariant rest <= database.objects.Keys && disk.Keys == database.objects.Keys - rest
        invariant forall id :: id in disk ==> disk[id] == all[id]
        decreases |rest|
      {
        var id :| id in rest;
        if id in faults {
          disk := disk[id := Throws(faults[id])];
        } else {
          var file := filesystem.ReadObject(id);
          disk := disk[id := match file case None => Absent case Some(data) => Readable(data)];
        }
        rest := rest - {id};
      }
    }
  }
}
