/** Uploads, downloads, edits and prunes taken apart into their steps and run in any
    interleaving. Part ids are generated, so no two uploads ever share one. */
module Interleaving {
  import opened Base
  import opened Relations
  import opened RelationLaws
  import opened Accounting
  import opened Calls
  import opened Checking
  import opened Store
  import opened Filesystem

  /** How far an upload has got. `Stored` is the window of `commit_part` between its
      database step, which returned `owner`, and its file step. */
  datatype Upload = Writing | Described(row: Row) | Stored(owner: Uuid) | Finished | Refused

  /** How far a download has got. `Found` is the window of `get_object` between its
      database step, which returned `row`, and its file step. */
  datatype Read = Unlisted | Found(id: Uuid, row: Row) | Served(row: Row, data: Bytes) | Lost(id: Uuid, row: Row)

  datatype World = World(
    tables: Tables,
    objects: map<Uuid, Bytes>,
    parts: map<Uuid, Bytes>,
    uploads: map<Uuid, Upload>,
    queued: set<Uuid>,         // pruned rows whose files are still to be removed
    late: set<Uuid>,           // history: renamed when neither stored nor queued
    readers: map<nat, Read>)   // downloads, each call with a number

  const EmptyWorld := World(EmptyTables, map[], map[], map[], {}, {}, map[])

  ghost function StoreOf(w: World): Store {
    Store(w.tables, w.objects, w.parts)
  }

  datatype Event =
    | Open(part: Uuid)
    | Write(part: Uuid, data: Bytes)
    | Measure(part: Uuid)
    | Insert(part: Uuid, bucket: Uuid)
    | Place(part: Uuid)
    | Sql(edit: Edit)
    | PruneRows
    | PruneFile(id: Uuid)
    | Lookup(read: nat, bucket: Uuid, id: Uuid)
    | OpenFile(read: nat)

  ghost predicate Enabled(w: World, e: Event) {
    match e
    case Open(part) => part !in w.uploads
    case Write(part, _) => part in w.uploads && w.uploads[part].Writing?
    case Measure(part) => part in w.uploads && w.uploads[part].Writing? && part in w.parts
    case Insert(part, _) => part in w.uploads && w.uploads[part].Described?
    case Place(part) => part in w.uploads && w.uploads[part].Stored?
    case Sql(_) => true
    case PruneRows => true
    case PruneFile(id) => id in w.queued
    case Lookup(read, _, _) => read !in w.readers
    case OpenFile(read) => read in w.readers && w.readers[read].Found?
  }

  /** The rename of a new object comes too late when its row is gone and no prune is
      going to remove the file. */
  ghost predicate ComesLate(w: World, part: Uuid) {
    && part in w.uploads && w.uploads[part] == Stored(part)
    && part !in w.tables.objects && part !in w.queued
  }

  ghost function Next(probe: Probe, w: World, e: Event): World
    requires Enabled(w, e)
  {
    match e
    case Open(part) =>
      w.(uploads := w.uploads[part := Writing], parts := w.parts[part := []])
    case Write(part, data) =>
      w.(parts := WritePart(StoreOf(w), part, data).parts)
    case Measure(part) =>
      w.(uploads := w.uploads[part := Described(Describe(probe, w.parts[part]))])
    case Insert(part, bucket) =>
      var r := AddObject(w.tables, bucket, part, w.uploads[part].row);
      if r.Err? then
        w.(uploads := w.uploads[part := Refused])
      else
        w.(tables := r.value.tables, uploads := w.uploads[part := Stored(r.value.objectId)])
    case Place(part) =>
      var s := PlaceFile(StoreOf(w), part, w.uploads[part].owner);
      w.(objects := s.objects, parts := s.parts, uploads := w.uploads[part := Finished],
         late := if ComesLate(w, part) then w.late + {part} else w.late)
    case Sql(edit) => w.(tables := ApplyEdit(w.tables, edit))
    case PruneRows =>
      var Pruned(t, gone) := RemoveOrphans(w.tables);
      w.(tables := t, queued := w.queued + gone.Keys)
    case PruneFile(id) =>
      w.(objects := w.objects - {id}, queued := w.queued - {id})
    case Lookup(read, bucket, id) =>
      w.(readers := w.readers[read :=
        if Link(bucket, id) in w.tables.links && id in w.tables.objects then Found(id, w.tables.objects[id])
        else Unlisted])
    case OpenFile(read) =>
      var Found(id, row) := w.readers[read];
      w.(readers := w.readers[read := if id in w.objects then Served(row, w.objects[id]) else Lost(id, row)])
  }

  ghost predicate Leads(probe: Probe, w: World, events: seq<Event>, w': World)
    decreases |events|
  {
    if events == [] then w == w'
    else Enabled(w, events[0]) && Leads(probe, Next(probe, w, events[0]), events[1..], w')
  }

  lemma {:induction false} LeadsOn(probe: Probe, w: World, events: seq<Event>, w': World, e: Event)
    requires Leads(probe, w, events, w') && Enabled(w', e)
    ensures Leads(probe, w, events + [e], Next(probe, w', e))
    decreases |events|
  {
    var more := events + [e];
    if events == [] {
      assert more[1..] == [];
      assert Leads(probe, Next(probe, w, e), more[1..], Next(probe, w', e));
    } else {
      assert more[1..] == events[1..] + [e];
      LeadsOn(probe, Next(probe, w, events[0]), events[1..], w', e);
    }
  }

  // The invariant, id by id

  /** The upload has reached the database. */
  ghost predicate Inserted(w: World, id: Uuid) {
    id in w.uploads && (w.uploads[id].Finished? || w.uploads[id] == Stored(id))
  }

  ghost predicate PartFits(probe: Probe, w: World, id: Uuid) {
    && (id in w.parts ==> id in w.uploads)
    && (id in w.uploads && !w.uploads[id].Finished? ==> id in w.parts)
    && (id in w.uploads && w.uploads[id].Described? ==> id in w.parts && w.uploads[id].row == Describe(probe, w.parts[id]))
  }

  /** A row's contents are in its file, or still in the part of its own upload. */
  ghost predicate RowFits(probe: Probe, w: World, id: Uuid) {
    id in w.tables.objects ==>
      && Inserted(w, id) && id !in w.queued
      && if w.uploads[id].Finished? then
           id in w.objects && Describe(probe, w.objects[id]) == w.tables.objects[id]
         else
           id !in w.objects && id in w.parts && Describe(probe, w.parts[id]) == w.tables.objects[id]
  }

  ghost predicate FileFits(w: World, id: Uuid) {
    && (id in w.queued ==> Inserted(w, id) && (w.uploads[id].Finished? ==> id in w.objects))
    && (id in w.objects ==>
          && id in w.uploads && w.uploads[id].Finished?
          && (id in w.tables.objects || id in w.queued || id in w.late))
    && (id in w.late ==> id in w.objects && id !in w.tables.objects && id !in w.queued)
  }

  ghost predicate Fits(probe: Probe, w: World, id: Uuid) {
    PartFits(probe, w, id) && RowFits(probe, w, id) && FileFits(w, id)
  }

  ghost predicate Inv(probe: Probe, w: World) {
    && Consistent(w.tables)
    && (forall id :: Fits(probe, w, id))
    && w.tables.errors == map[]
  }

  /** A row that was looked up is the description of the object's contents for good: in
      its file as long as there is one, and before that in the part. */
  ghost predicate ReadFits(probe: Probe, w: World, read: nat) {
    read in w.readers ==>
      match w.readers[read]
      case Found(id, row) =>
        && Inserted(w, id)
        && (id in w.tables.objects ==> w.tables.objects[id] == row)
        && if w.uploads[id].Finished? then
             id in w.objects ==> Describe(probe, w.objects[id]) == row
           else
             id in w.parts && Describe(probe, w.parts[id]) == row
      case Served(row, data) => Describe(probe, data) == row
      case _ => true
  }

  ghost predicate ReadsFit(probe: Probe, w: World) {
    forall read :: ReadFits(probe, w, read)
  }

  lemma InsertFits(probe: Probe, w: World, part: Uuid, bucket: Uuid, id: Uuid)
    requires Inv(probe, w) && Enabled(w, Insert(part, bucket))
    ensures Consistent(Next(probe, w, Insert(part, bucket)).tables)
    ensures Fits(probe, Next(probe, w, Insert(part, bucket)), id)
    ensures Next(probe, w, Insert(part, bucket)).tables.errors == map[]
  {
    assert Fits(probe, w, id) && Fits(probe, w, part);
    AddObjectCases(w.tables, bucket, part, w.uploads[part].row);
  }

  lemma PlaceFits(probe: Probe, w: World, part: Uuid, id: Uuid)
    requires Inv(probe, w) && Enabled(w, Place(part))
    ensures Fits(probe, Next(probe, w, Place(part)), id)
  {
    assert Fits(probe, w, id) && Fits(probe, w, part);
  }

  lemma PruneRowsFits(probe: Probe, w: World, id: Uuid)
    requires Inv(probe, w)
    ensures Fits(probe, Next(probe, w, PruneRows), id)
  {
    assert Fits(probe, w, id);
    PruneExact(w.tables);
  }

  lemma NextInv(probe: Probe, w: World, e: Event)
    requires Inv(probe, w) && Enabled(w, e)
    ensures Inv(probe, Next(probe, w, e))
  {
    var w' := Next(probe, w, e);
    if e.PruneRows? {
      PruneExact(w.tables);
    } else if e.Sql? {
      EditKeeps(w.tables, e.edit);
    } else if e.Insert? {
      InsertFits(probe, w, e.part, e.bucket, e.part);
    }
    forall id ensures Fits(probe, w', id) {
      assert Fits(probe, w, id);
      match e
      case Insert(part, bucket) => InsertFits(probe, w, part, bucket, id);
      case Place(part) => PlaceFits(probe, w, part, id);
      case PruneRows => PruneRowsFits(probe, w, id);
      case _ =>
    }
  }

  /** A read's object is another one than that of an upload not yet inserted. */
  lemma NextReadFits(probe: Probe, w: World, e: Event, read: nat)
    requires Inv(probe, w) && ReadFits(probe, w, read) && Enabled(w, e)
    ensures ReadFits(probe, Next(probe, w, e), read)
  {
    match e {
      case Insert(part, bucket) => AddObjectCases(w.tables, bucket, part, w.uploads[part].row);
      case Place(part) => assert Fits(probe, w, part);
      case Sql(edit) => EditKeeps(w.tables, edit);
      case Lookup(_, _, id) => assert Fits(probe, w, id);
      case OpenFile(r) => assert r == read ==> Fits(probe, w, w.readers[r].id);
      case _ =>
    }
  }

  lemma {:induction false} LeadsInv(probe: Probe, w: World, events: seq<Event>, w': World)
    requires Inv(probe, w) && ReadsFit(probe, w) && Leads(probe, w, events, w')
    ensures Inv(probe, w') && ReadsFit(probe, w')
    decreases |events|
  {
    if events != [] {
      NextInv(probe, w, events[0]);
      forall read ensures ReadFits(probe, Next(probe, w, events[0]), read) {
        assert ReadFits(probe, w, read);
        NextReadFits(probe, w, events[0], read);
      }
      LeadsInv(probe, Next(probe, w, events[0]), events[1..], w');
    }
  }

  // The main results

  /** In every reachable world each row either has its file, with the row's checksum, size
      and type, or is the object of one upload that is past its insert, before its rename,
      and still holds the contents as its part. No row's file is going to be removed. */
  lemma NoContentIsLost(probe: Probe, events: seq<Event>, w: World, id: Uuid)
    requires Leads(probe, EmptyWorld, events, w) && id in w.tables.objects
    ensures id !in w.queued
    ensures id in w.objects <==> !(id in w.uploads && w.uploads[id] == Stored(id))
    ensures id in w.objects ==> Describe(probe, w.objects[id]) == w.tables.objects[id]
    ensures id !in w.objects ==> id in w.parts && Describe(probe, w.parts[id]) == w.tables.objects[id]
  {
    LeadsInv(probe, EmptyWorld, events, w);
    assert Fits(probe, w, id);
  }

  /** Where a call of `get_object` stands just before it opens the file, whatever happened
      since its lookup. */
  lemma {:induction false} ReadWaits(probe: Probe, w: World, events: seq<Event>, w': World, read: nat)
    requires Leads(probe, w, events, w')
    requires read in w.readers && OpenFile(read) !in events
    ensures read in w'.readers && w'.readers[read] == w.readers[read]
    decreases |events|
  {
    if events != [] {
      ReadWaits(probe, Next(probe, w, events[0]), events[1..], w', read);
    }
  }

  /** A download looks a listed object up in one world and opens its file in a later one.
      The open succeeds exactly when, at that time, the object's own upload has finished
      and the object is still stored, or still waits for the removal of its file, or was
      renamed too late to be removed. What is opened is what the looked-up row describes,
      and never anything else. */
  lemma DownloadWorksExactly(probe: Probe, before: seq<Event>, w: World, read: nat, bucket: Uuid, id: Uuid,
                             between: seq<Event>, w': World)
    requires Leads(probe, EmptyWorld, before, w)
    requires Enabled(w, Lookup(read, bucket, id)) && Link(bucket, id) in w.tables.links
    requires Leads(probe, Next(probe, w, Lookup(read, bucket, id)), between, w') && OpenFile(read) !in between
    ensures id in w.tables.objects && id in w'.uploads && Enabled(w', OpenFile(read))
    ensures var row, outcome := w.tables.objects[id], Next(probe, w', OpenFile(read)).readers[read];
            && (outcome.Served? <==> && w'.uploads[id].Finished?
                                     && (id in w'.tables.objects || id in w'.queued || id in w'.late))
            && (outcome.Served? ==> outcome.row == row == Describe(probe, outcome.data))
            && (!outcome.Served? ==> outcome == Lost(id, row))
  {
    var found := Next(probe, w, Lookup(read, bucket, id));
    LeadsInv(probe, EmptyWorld, before, w);
    assert Fits(probe, w, id);
    forall r ensures ReadFits(probe, found, r) {
      assert ReadFits(probe, w, r);
      NextReadFits(probe, w, Lookup(read, bucket, id), r);
    }
    NextInv(probe, w, Lookup(read, bucket, id));
    LeadsInv(probe, found, between, w');
    ReadWaits(probe, found, between, w', read);
    FoundOpens(probe, w', read);
  }

  lemma FoundOpens(probe: Probe, w: World, read: nat)
    requires Inv(probe, w) && ReadsFit(probe, w) && Enabled(w, OpenFile(read))
    ensures var Found(id, row) := w.readers[read];
            var outcome := Next(probe, w, OpenFile(read)).readers[read];
            && id in w.uploads
            && (outcome.Served? <==> && w.uploads[id].Finished?
                                     && (id in w.tables.objects || id in w.queued || id in w.late))
            && (outcome.Served? ==> outcome.row == row == Describe(probe, outcome.data))
            && (!outcome.Served? ==> outcome == Lost(id, row))
  {
    assert ReadFits(probe, w, read) && Fits(probe, w, w.readers[read].id);
  }

  lemma {:induction false} FileStays(probe: Probe, w: World, events: seq<Event>, w': World, id: Uuid)
    requires Leads(probe, w, events, w')
    requires id in w.uploads && w.uploads[id].Finished?
    ensures id in w'.uploads && w'.uploads[id].Finished?
    ensures id in w'.objects <==> id in w.objects && PruneFile(id) !in events
    decreases |events|
  {
    if events != [] {
      FileStays(probe, Next(probe, w, events[0]), events[1..], w', id);
    }
  }

  /** Once the object's upload has finished, only a prune can spoil a download, and it does
      exactly when it removes the file between the lookup and the open. */
  lemma OnlyPruneSpoilsDownload(probe: Probe, before: seq<Event>, w: World, read: nat, bucket: Uuid, id: Uuid,
                                between: seq<Event>, w': World)
    requires Leads(probe, EmptyWorld, before, w)
    requires Enabled(w, Lookup(read, bucket, id)) && Link(bucket, id) in w.tables.links
    requires Leads(probe, Next(probe, w, Lookup(read, bucket, id)), between, w') && OpenFile(read) !in between
    requires id in w.uploads && w.uploads[id].Finished?
    ensures Enabled(w', OpenFile(read))
    ensures Next(probe, w', OpenFile(read)).readers[read].Served? <==> PruneFile(id) !in between
  {
    LeadsInv(probe, EmptyWorld, before, w);
    assert Fits(probe, w, id);
    ReadWaits(probe, Next(probe, w, Lookup(read, bucket, id)), between, w', read);
    FileStays(probe, Next(probe, w, Lookup(read, bucket, id)), between, w', id);
  }

  /** Nothing is between its database step and its file step. */
  ghost predicate Quiet(w: World) {
    w.queued == {} && forall part :: part in w.uploads ==> !w.uploads[part].Stored?
  }

  /** With nothing in flight, every row has its file, and a check reports no error. */
  lemma QuietStoreIsSound(probe: Probe, events: seq<Event>, w: World)
    requires Leads(probe, EmptyWorld, events, w) && Quiet(w)
    ensures forall id :: id in w.tables.objects ==>
              id in w.objects && Describe(probe, w.objects[id]) == w.tables.objects[id]
    ensures Failures(w.tables.objects, Verdicts(probe, Disk(w.tables.objects.Keys, w.objects, map[]), w.tables.objects)) == map[]
  {
    LeadsInv(probe, EmptyWorld, events, w);
    forall id | id in w.tables.objects
      ensures id in w.objects && Describe(probe, w.objects[id]) == w.tables.objects[id]
    {
      NoContentIsLost(probe, events, w, id);
    }
  }

  /** No rename in the run comes too late. */
  ghost predicate Timely(probe: Probe, w: World, events: seq<Event>, w': World)
    requires Leads(probe, w, events, w')
    decreases |events|
  {
    events != [] ==>
      && !(events[0].Place? && ComesLate(w, events[0].part))
      && Timely(probe, Next(probe, w, events[0]), events[1..], w')
  }

  lemma {:induction false} LateIsKept(probe: Probe, w: World, events: seq<Event>, w': World)
    requires Inv(probe, w) && Leads(probe, w, events, w')
    ensures w.late <= w'.late
    ensures Timely(probe, w, events, w') <==> w'.late == w.late
    decreases |events|
  {
    if events != [] {
      var e := events[0];
      NextInv(probe, w, e);
      LateIsKept(probe, Next(probe, w, e), events[1..], w');
      if e.Place? && ComesLate(w, e.part) {
        assert Fits(probe, w, e.part);
        assert e.part !in w.late && e.part in w'.late;
      }
    }
  }

  /** With nothing in flight, the object files are exactly those of the rows if and only if
      no rename came when its row had been pruned and its file's removal was already done. */
  lemma FilesMatchRowsExactly(probe: Probe, events: seq<Event>, w: World)
    requires Leads(probe, EmptyWorld, events, w) && Quiet(w)
    ensures w.objects.Keys == w.tables.objects.Keys <==> Timely(probe, EmptyWorld, events, w)
    ensures w.objects.Keys == w.tables.objects.Keys + w.late
  {
    LateIsKept(probe, EmptyWorld, events, w);
    LeadsInv(probe, EmptyWorld, events, w);
    forall id
      ensures id in w.objects <==> id in w.tables.objects || id in w.late
      ensures id in w.late ==> id !in w.tables.objects
    {
      assert Fits(probe, w, id);
    }
    assert w.late == {} <==> w.objects.Keys == w.tables.objects.Keys;
  }

  // The two levels

  /** A commit whose steps nothing comes between is the operation of module `Store`,
      refused for refused. */
  lemma StepsMakeCommit(probe: Probe, w: World, part: Uuid, bucket: Uuid)
    requires Inv(probe, w) && Enabled(w, Measure(part))
    ensures var w' := Next(probe, Next(probe, w, Measure(part)), Insert(part, bucket));
            match CommitPart(probe, StoreOf(w), bucket, part)
            case Ok(commit) =>
              && w'.uploads[part] == Stored(commit.objectId)
              && StoreOf(Next(probe, w', Place(part))) == commit.store
            case Err(_) =>
              w'.uploads[part] == Refused && StoreOf(w') == StoreOf(w)
  {
  }

  /** A download whose steps nothing comes between is the operation of module `Store`. */
  lemma StepsMakeDownload(probe: Probe, w: World, read: nat, bucket: Uuid, id: Uuid)
    requires read !in w.readers
    ensures var w' := Next(probe, w, Lookup(read, bucket, id));
            match GetObject(StoreOf(w), bucket, id)
            case Ok(download) =>
              && Enabled(w', OpenFile(read))
              && Next(probe, w', OpenFile(read)).readers[read] == Served(download.row, download.data)
            case Err(NotFound) =>
              w'.readers[read] == Unlisted
            case Err(_) =>
              Enabled(w', OpenFile(read)) && Next(probe, w', OpenFile(read)).readers[read].Lost?
  {
  }

  lemma {:induction false} FilesRemoved(probe: Probe, w: World, files: seq<Uuid>, w': World)
    requires Leads(probe, w, Removals(files), w')
    ensures w' == w.(objects := w'.objects, queued := w'.queued) && w'.queued <= w.queued
    ensures w'.objects == w.objects - (w.queued - w'.queued)
    decreases |files|
  {
    if files == [] {
      assert w.objects - (w.queued - w'.queued) == w.objects;
    } else {
      var next := Next(probe, w, PruneFile(files[0]));
      assert Removals(files)[1..] == Removals(files[1..]);
      FilesRemoved(probe, next, files[1..], w');
      assert w.queued - w'.queued == {files[0]} + (next.queued - w'.queued);
    }
  }

  function Removals(files: seq<Uuid>): seq<Event> {
    seq(|files|, i requires 0 <= i < |files| => PruneFile(files[i]))
  }

  /** A prune whose steps nothing comes between, in any order of files, is the operation of
      module `Store`. */
  lemma StepsMakePrune(probe: Probe, w: World, files: seq<Uuid>, w': World)
    requires w.queued == {} && w'.queued == {}
    requires Leads(probe, w, [PruneRows] + Removals(files), w')
    ensures StoreOf(w') == PruneStore(StoreOf(w))
  {
    var events := [PruneRows] + Removals(files);
    assert events[1..] == Removals(files);
    var next := Next(probe, w, PruneRows);
    FilesRemoved(probe, next, files, w');
    assert next.queued - w'.queued == RemoveOrphans(w.tables).removed.Keys;
  }

  /** What each row stands for: the contents of its file, or else of its part. */
  function RowContents(rows: set<Uuid>, objects: map<Uuid, Bytes>, parts: map<Uuid, Bytes>): map<Uuid, Bytes> {
    map id | id in rows :: if id in objects then objects[id] else Opened(parts, id)
  }

  /** The parts of uploads that are not past their insert. */
  function OpenParts(parts: map<Uuid, Bytes>, uploads: map<Uuid, Upload>): map<Uuid, Bytes> {
    map part | part in parts && part in uploads && !uploads[part].Stored? :: parts[part]
  }

  /** A world as the atomic store it stands for: an inserted object counts as stored, and
      its part as gone. */
  ghost function Abstract(w: World): Store {
    Store(w.tables, RowContents(w.tables.objects.Keys, w.objects, w.parts), OpenParts(w.parts, w.uploads))
  }

  /** The operation that takes effect in a step, if one does: a commit does at its insert,
      a prune when it deletes the rows. */
  function Effect(e: Event): seq<Op> {
    match e
    case Open(part) => [Append(part, [])]
    case Write(part, data) => [Append(part, data)]
    case Insert(part, bucket) => [Finish(bucket, part)]
    case Sql(edit) => [Change(edit)]
    case PruneRows => [Sweep]
    case _ => []
  }

  function Effects(events: seq<Event>): seq<Op> {
    if events == [] then [] else Effect(events[0]) + Effects(events[1..])
  }

  lemma OneMoreRow(rows: set<Uuid>, objects: map<Uuid, Bytes>, parts: map<Uuid, Bytes>, part: Uuid)
    requires part in parts && part !in objects
    ensures RowContents(rows + {part}, objects, parts) == RowContents(rows, objects, parts)[part := parts[part]]
  {
  }

  lemma OpenPartsInsert(parts: map<Uuid, Bytes>, uploads: map<Uuid, Upload>, part: Uuid, u: Upload)
    requires part in uploads && !uploads[part].Stored?
    ensures OpenParts(parts, uploads[part := u])
         == if u.Stored? then OpenParts(parts, uploads) - {part} else OpenParts(parts, uploads)
  {
  }

  lemma InsertTakesEffect(probe: Probe, w: World, part: Uuid, bucket: Uuid)
    requires Inv(probe, w) && Enabled(w, Insert(part, bucket))
    ensures Abstract(Next(probe, w, Insert(part, bucket))) == Apply(probe, Abstract(w), Finish(bucket, part))
  {
    var a, row := Abstract(w), w.uploads[part].row;
    assert Fits(probe, w, part);
    assert a.parts[part] == w.parts[part] && row == Describe(probe, a.parts[part]);
    AddObjectCases(w.tables, bucket, part, row);
    match AddObject(w.tables, bucket, part, row)
    case Err(_) =>
      OpenPartsInsert(w.parts, w.uploads, part, Refused);
    case Ok(Added(t, owner)) =>
      OpenPartsInsert(w.parts, w.uploads, part, Stored(owner));
      OneMoreRow(w.tables.objects.Keys, w.objects, w.parts, part);
      assert owner == part ==> t.objects.Keys == w.tables.objects.Keys + {part};
  }

  /** Contents that move from a part to its file are the row's all the time. */
  lemma ContentsMove(rows: set<Uuid>, objects: map<Uuid, Bytes>, parts: map<Uuid, Bytes>, part: Uuid)
    ensures part !in rows ==> RowContents(rows, objects, parts - {part}) == RowContents(rows, objects, parts)
    ensures part in parts && (part in rows ==> part !in objects) ==>
              RowContents(rows, objects[part := parts[part]], parts - {part}) == RowContents(rows, objects, parts)
  {
  }

  lemma OpenPartsPlace(parts: map<Uuid, Bytes>, uploads: map<Uuid, Upload>, part: Uuid)
    requires part in uploads && uploads[part].Stored?
    ensures OpenParts(parts - {part}, uploads[part := Finished]) == OpenParts(parts, uploads)
  {
  }

  lemma PlaceTakesNoEffect(probe: Probe, w: World, part: Uuid)
    requires Inv(probe, w) && Enabled(w, Place(part))
    ensures Abstract(Next(probe, w, Place(part))) == Abstract(w)
  {
    assert Fits(probe, w, part);
    ContentsMove(w.tables.objects.Keys, w.objects, w.parts, part);
    OpenPartsPlace(w.parts, w.uploads, part);
  }

  lemma FewerRows(rows: set<Uuid>, gone: set<Uuid>, objects: map<Uuid, Bytes>, parts: map<Uuid, Bytes>)
    ensures RowContents(rows - gone, objects, parts) == RowContents(rows, objects, parts) - gone
  {
  }

  lemma PruneTakesEffect(probe: Probe, w: World)
    ensures Abstract(Next(probe, w, PruneRows)) == Apply(probe, Abstract(w), Sweep)
  {
    FewerRows(w.tables.objects.Keys, Orphans(w.tables), w.objects, w.parts);
    assert RemoveOrphans(w.tables).removed.Keys == Orphans(w.tables);
    assert RemoveOrphans(w.tables).tables.objects.Keys == w.tables.objects.Keys - Orphans(w.tables);
  }

  lemma WriteTakesEffect(probe: Probe, w: World, e: Event)
    requires Inv(probe, w) && Enabled(w, e) && (e.Open? || e.Write?)
    ensures Abstract(Next(probe, w, e))
         == WritePart(Abstract(w), e.part, if e.Open? then [] else e.data)
  {
    var w', data := Next(probe, w, e), if e.Open? then [] else e.data;
    assert Fits(probe, w, e.part);
    assert w'.parts == Received(w.parts, e.part, data);
    RowsApart(w.tables.objects.Keys, w.objects, w.parts, e.part, data);
    assert OpenParts(w'.parts, w'.uploads) == Received(OpenParts(w.parts, w.uploads), e.part, data);
  }

  lemma RowsApart(rows: set<Uuid>, objects: map<Uuid, Bytes>, parts: map<Uuid, Bytes>, part: Uuid, data: Bytes)
    requires part !in rows
    ensures RowContents(rows, objects, Received(parts, part, data)) == RowContents(rows, objects, parts)
  {
  }

  lemma StepTakesEffect(probe: Probe, w: World, e: Event)
    requires Inv(probe, w) && Enabled(w, e)
    ensures Effect(e) == [] ==> Abstract(Next(probe, w, e)) == Abstract(w)
    ensures Effect(e) != [] ==> Abstract(Next(probe, w, e)) == Apply(probe, Abstract(w), Effect(e)[0])
  {
    match e {
      case Open(_) => WriteTakesEffect(probe, w, e);
      case Write(_, _) => WriteTakesEffect(probe, w, e);
      case Measure(part) =>
        OpenPartsInsert(w.parts, w.uploads, part, Next(probe, w, e).uploads[part]);
      case Insert(part, bucket) => InsertTakesEffect(probe, w, part, bucket);
      case Place(part) => PlaceTakesNoEffect(probe, w, part);
      case Sql(edit) => EditKeeps(w.tables, edit);
      case PruneRows => PruneTakesEffect(probe, w);
      case PruneFile(id) =>
        assert Fits(probe, w, id);
        assert Abstract(Next(probe, w, e)).objects == Abstract(w).objects;
      case _ =>
    }
  }

  lemma {:induction false} RunTakesEffect(probe: Probe, w: World, events: seq<Event>, w': World)
    requires Inv(probe, w) && Leads(probe, w, events, w')
    ensures Abstract(w') == ApplyAll(probe, Abstract(w), Effects(events))
    decreases |events|
  {
    if events != [] {
      var next := Next(probe, w, events[0]);
      NextInv(probe, w, events[0]);
      StepTakesEffect(probe, w, events[0]);
      RunTakesEffect(probe, next, events[1..], w');
      assert Effect(events[0]) != [] ==> Effects(events)[1..] == Effects(events[1..]);
      assert Effect(events[0]) == [] ==> Effects(events) == Effects(events[1..]);
    }
  }

  lemma QuietIsAbstract(probe: Probe, w: World)
    requires Inv(probe, w) && Quiet(w)
    ensures Abstract(w) == StoreOf(w).(objects := w.objects - w.late)
  {
    forall id
      ensures id in w.tables.objects <==> id in w.objects && id !in w.late
      ensures id in w.parts ==> id in w.uploads
    {
      assert Fits(probe, w, id);
    }
    assert Abstract(w).objects == w.objects - w.late;
    assert Abstract(w).parts == w.parts;
  }

  /** Every interleaving has the effect of complete operations, one after another, each
      taking effect at its database step. With nothing in flight this is what is really
      stored, but for the files of late renames. */
  lemma RunsAreAtomicRuns(probe: Probe, events: seq<Event>, w: World)
    requires Leads(probe, EmptyWorld, events, w)
    ensures Abstract(w) == ApplyAll(probe, EmptyStore, Effects(events))
    ensures Quiet(w) ==>
              var s := ApplyAll(probe, EmptyStore, Effects(events));
              StoreOf(w).(objects := w.objects - w.late) == s && (Timely(probe, EmptyWorld, events, w) <==> StoreOf(w) == s)
  {
    LeadsInv(probe, EmptyWorld, events, w);
    assert Abstract(EmptyWorld) == EmptyStore;
    RunTakesEffect(probe, EmptyWorld, events, w);
    if Quiet(w) {
      QuietIsAbstract(probe, w);
      FilesMatchRowsExactly(probe, events, w);
      assert w.late == {} ==> w.objects - w.late == w.objects;
    }
  }

  // Runs that fall short

  const StrayBucket := Uuid("b")
  const StrayPart := Uuid("p")

  /** An upload is overtaken between its insert and its rename: its object is unlinked and
      pruned, and the prune finds no file to remove. */
  const Overtaken: seq<Event> := [
    Sql(NewBucket(StrayBucket, "bucket")), Open(StrayPart), Measure(StrayPart), Insert(StrayPart, StrayBucket),
    Sql(Detach(StrayBucket, StrayPart)), PruneRows, PruneFile(StrayPart), Place(StrayPart)]

  /** The world after `k` of these events. */
  function Scene(probe: Probe, k: nat): World {
    var p, row := StrayPart, Describe(probe, []);
    var tables := Tables(
      if k < 1 then map[] else map[StrayBucket := "bucket"],
      if 4 <= k < 6 then map[p := row] else map[],
      if k == 4 then {Link(StrayBucket, p)} else {},
      map[]);
    World(
      tables,
      if k < 8 then map[] else map[p := []],
      if 2 <= k < 8 then map[p := []] else map[],
      if k < 2 then map[]
      else map[p := if k == 2 then Writing else if k == 3 then Described(row)
                    else if k < 8 then Stored(p) else Finished],
      if k == 6 then {p} else {},
      if k < 8 then {} else {p},
      map[])
  }

  lemma SceneUpload(probe: Probe, k: nat)
    requires k < 4
    ensures Enabled(Scene(probe, k), Overtaken[k])
    ensures Next(probe, Scene(probe, k), Overtaken[k]) == Scene(probe, k + 1)
  {
    if k == 3 {
      assert !Known(Scene(probe, k).tables.objects, Describe(probe, []).hash);
    }
  }

  lemma SceneDetach(probe: Probe)
    ensures Next(probe, Scene(probe, 4), Overtaken[4]) == Scene(probe, 5)
  {
    assert Scene(probe, 4).tables.links - {Link(StrayBucket, StrayPart)} == {};
  }

  lemma ScenePrune(probe: Probe)
    ensures Next(probe, Scene(probe, 5), PruneRows) == Scene(probe, 6)
  {
    var t := Scene(probe, 5).tables;
    assert LinksTo(t, StrayPart) == {};
    assert Orphans(t) == {StrayPart};
    assert RemoveOrphans(t).removed.Keys == {StrayPart};
  }

  lemma SceneFiles(probe: Probe, k: nat)
    requires 6 <= k < 8
    ensures Enabled(Scene(probe, k), Overtaken[k])
    ensures Next(probe, Scene(probe, k), Overtaken[k]) == Scene(probe, k + 1)
  {
  }

  lemma SceneStep(probe: Probe, k: nat)
    requires k < 8
    ensures Enabled(Scene(probe, k), Overtaken[k])
    ensures Next(probe, Scene(probe, k), Overtaken[k]) == Scene(probe, k + 1)
  {
    if k < 4 {
      SceneUpload(probe, k);
    } else if k == 4 {
      SceneDetach(probe);
    } else if k == 5 {
      ScenePrune(probe);
    } else {
      SceneFiles(probe, k);
    }
  }

  lemma {:induction false} SceneRun(probe: Probe, k: nat)
    requires k <= 8
    ensures Leads(probe, EmptyWorld, Overtaken[..k], Scene(probe, k))
  {
    if k == 0 {
      assert Scene(probe, 0) == EmptyWorld;
    } else {
      SceneRun(probe, k - 1);
      SceneStep(probe, k - 1);
      LeadsOn(probe, EmptyWorld, Overtaken[..k - 1], Scene(probe, k - 1), Overtaken[k - 1]);
      assert Overtaken[..k] == Overtaken[..k - 1] + [Overtaken[k - 1]];
    }
  }

  /** So "every object file has a row" fails even with nothing in flight. */
  lemma FileWithoutRow(probe: Probe)
    ensures exists w ::
              && Leads(probe, EmptyWorld, Overtaken, w) && Quiet(w)
              && StrayPart in w.objects && StrayPart !in w.tables.objects
  {
    SceneRun(probe, 8);
    assert Overtaken[..8] == Overtaken;
    assert Quiet(Scene(probe, 8));
  }

  /** A download of an object whose upload is in its window fails, though a bucket lists the
      object all the time. */
  lemma DownloadTooEarly(probe: Probe)
    ensures exists events, w ::
              && Leads(probe, EmptyWorld, events, w) && Link(StrayBucket, StrayPart) in w.tables.links
              && 0 in w.readers && w.readers[0] == Lost(StrayPart, Describe(probe, []))
  {
    var w := Scene(probe, 4);
    var found := Next(probe, w, Lookup(0, StrayBucket, StrayPart));
    SceneRun(probe, 4);
    LeadsOn(probe, EmptyWorld, Overtaken[..4], w, Lookup(0, StrayBucket, StrayPart));
    LeadsOn(probe, EmptyWorld, Overtaken[..4] + [Lookup(0, StrayBucket, StrayPart)], found, OpenFile(0));
  }

  /** The world of an upload that went through, and of a download that found its object. */
  function FoundScene(probe: Probe): World {
    var p, row := StrayPart, Describe(probe, []);
    Scene(probe, 4).(objects := map[p := []], parts := map[], uploads := map[p := Finished],
                     readers := map[0 := Found(p, row)])
  }

  lemma FoundRun(probe: Probe)
    ensures Leads(probe, EmptyWorld, Overtaken[..4] + [Place(StrayPart)] + [Lookup(0, StrayBucket, StrayPart)],
                  FoundScene(probe))
  {
    var w := Scene(probe, 4);
    SceneRun(probe, 4);
    LeadsOn(probe, EmptyWorld, Overtaken[..4], w, Place(StrayPart));
    var placed := Next(probe, w, Place(StrayPart));
    LeadsOn(probe, EmptyWorld, Overtaken[..4] + [Place(StrayPart)], placed, Lookup(0, StrayBucket, StrayPart));
    assert Next(probe, placed, Lookup(0, StrayBucket, StrayPart)) == FoundScene(probe);
  }

  /** The object is unlinked and pruned between the lookup and the open. */
  const SweptAway: seq<Event> := [Sql(Detach(StrayBucket, StrayPart)), PruneRows, PruneFile(StrayPart)]

  lemma SweptRun(probe: Probe) returns (w: World)
    ensures Leads(probe, FoundScene(probe), SweptAway, w)
    ensures StrayPart !in w.objects && w.readers == FoundScene(probe).readers
  {
    var found := FoundScene(probe);
    SceneDetach(probe);
    ScenePrune(probe);
    var detached := Next(probe, found, SweptAway[0]);
    assert detached.tables == Scene(probe, 5).tables;
    var pruned := Next(probe, detached, PruneRows);
    assert pruned.queued == {StrayPart};
    w := Next(probe, pruned, PruneFile(StrayPart));
    var events := [SweptAway[0]];
    assert [] + events == events;
    LeadsOn(probe, found, [], found, SweptAway[0]);
    LeadsOn(probe, found, events, detached, PruneRows);
    LeadsOn(probe, found, events + [PruneRows], pruned, PruneFile(StrayPart));
    assert SweptAway == events + [PruneRows] + [PruneFile(StrayPart)];
  }

  /** A download of an object whose upload has long finished fails too, when a prune comes
      between its lookup and its open. */
  lemma DownloadOvertaken(probe: Probe)
    ensures exists before, w, between, w' ::
              && Leads(probe, EmptyWorld, before, w)
              && StrayPart in w.uploads && w.uploads[StrayPart].Finished?
              && 0 in w.readers && w.readers[0].Found? && w.readers[0].id == StrayPart
              && GetObject(StoreOf(w), StrayBucket, StrayPart).Ok?
              && Leads(probe, w, between, w') && Enabled(w', OpenFile(0))
              && Next(probe, w', OpenFile(0)).readers[0].Lost?
  {
    FoundRun(probe);
    var w' := SweptRun(probe);
    assert GetObject(StoreOf(FoundScene(probe)), StrayBucket, StrayPart).Ok?;
    assert Next(probe, w', OpenFile(0)).readers[0].Lost?;
  }
}
