/** Runs of the SQL API: whatever calls are made, in whatever order, failed or not. */
module Calls {
  import opened Base
  import opened Relations
  import opened RelationLaws
  import opened Accounting

  /** The calls a client makes on buckets and their contents. */
  datatype Edit =
    | NewBucket(id: Uuid, name: string)
    | Rename(id: Uuid, name: string)
    | DropBucket(id: Uuid)
    | Detach(bucket: Uuid, objectId: Uuid)
    | DetachAll(bucket: Uuid, ids: seq<Uuid>)

  datatype Call =
    | Client(edit: Edit)
    | Add(bucket: Uuid, id: Uuid, row: Row)
    | Prune
    | Report(records: seq<Record>)

  ghost function Committed(t: Tables, r: Result<Tables>): Tables {
    if r.Ok? then r.value else t
  }

  /** The tables after an edit; a failed one is rolled back. */
  ghost function ApplyEdit(t: Tables, edit: Edit): Tables {
    match edit
    case NewBucket(id, name) => Committed(t, CreateBucket(t, id, name))
    case Rename(id, name) => Committed(t, RenameBucket(t, id, name))
    case DropBucket(id) => RemoveBucket(t, id)
    case Detach(bucket, o) => Committed(t, RemoveObject(t, bucket, o))
    case DetachAll(bucket, ids) =>
      var r := RemoveObjects(t, bucket, ids);
      if r.Ok? then r.value.tables else t
  }

  ghost function Execute(t: Tables, call: Call): Tables {
    match call
    case Client(edit) => ApplyEdit(t, edit)
    case Add(bucket, id, row) =>
      var r := AddObject(t, bucket, id, row);
      if r.Ok? then r.value.tables else t
    case Prune => RemoveOrphans(t).tables
    case Report(records) => Committed(t, UpdateErrors(t, records))
  }

  ghost function ExecuteAll(t: Tables, calls: seq<Call>): Tables
    decreases |calls|
  {
    if calls == [] then t else ExecuteAll(Execute(t, calls[0]), calls[1..])
  }

  /** Edits keep the constraints and leave objects and error records alone. */
  lemma EditKeeps(t: Tables, edit: Edit)
    requires Consistent(t)
    ensures Consistent(ApplyEdit(t, edit))
    ensures ApplyEdit(t, edit).objects == t.objects && ApplyEdit(t, edit).errors == t.errors
  {
    match edit
    case NewBucket(id, name) => NamingKeeps(t, id, name);
    case Rename(id, name) => NamingKeeps(t, id, name);
    case DropBucket(id) => FewerLinksKeep(t, {id}, ApplyEdit(t, edit).links);
    case Detach(_, _) => LinksOnly(t, edit);
    case DetachAll(_, _) => LinksOnly(t, edit);
  }

  lemma LinksOnly(t: Tables, edit: Edit)
    requires Consistent(t) && (edit.Detach? || edit.DetachAll?)
    ensures var t' := ApplyEdit(t, edit);
            t' == t.(links := t'.links) && t'.links <= t.links && Consistent(t')
  {
  }

  lemma ExecuteKeeps(t: Tables, call: Call)
    requires Consistent(t)
    ensures Consistent(Execute(t, call))
  {
    match call {
      case Client(edit) => EditKeeps(t, edit);
      case Add(bucket, id, row) => AddObjectCases(t, bucket, id, row);
      case Prune => PruneExact(t);
      case Report(records) =>
        if UpdateErrors(t, records).Ok? {
          UpdateErrorsKeeps(t, records);
        }
    }
  }

  /** Every table state that calls can produce satisfies every declared constraint. */
  lemma {:induction false} ReachableConsistent(t: Tables, calls: seq<Call>)
    requires Consistent(t)
    ensures Consistent(ExecuteAll(t, calls))
    decreases |calls|
  {
    if calls != [] {
      ExecuteKeeps(t, calls[0]);
      ReachableConsistent(Execute(t, calls[0]), calls[1..]);
    }
  }

  /** A row, once stored, is never altered: a call keeps it whole or deletes it, and only
      a prune deletes. */
  lemma RowsAreImmutable(t: Tables, call: Call, o: Uuid)
    requires Consistent(t) && o in t.objects
    ensures o in Execute(t, call).objects ==> Execute(t, call).objects[o] == t.objects[o]
    ensures o !in Execute(t, call).objects <==> call == Prune && ReferenceCount(t, o) == 0
  {
    if call.Add? {
      AddObjectCases(t, call.bucket, call.id, call.row);
    } else if call.Prune? {
      PruneExact(t);
    }
  }
}
