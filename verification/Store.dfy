/** The store as database and files together, with every operation run to completion
    before the next one starts. Part ids are whatever the clients choose. */
module Store {
  import opened Base
  import opened Relations
  import opened RelationLaws
  import opened Accounting
  import opened Calls
  import opened Checking
  import opened Filesystem

  datatype Store = Store(tables: Tables, objects: map<Uuid, Bytes>, parts: map<Uuid, Bytes>)

  const EmptyStore := Store(EmptyTables, map[], map[])

  /** The row that `commit_part` proposes for a file. */
  function Describe(probe: Probe, data: Bytes): Row {
    Row(probe.hash(data), |data|, MimeType(probe, data))
  }

  // Operations

  ghost function WritePart(s: Store, part: Uuid, data: Bytes): Store {
    s.(parts := Received(s.parts, part, data))
  }

  datatype Commit = Commit(store: Store, objectId: Uuid)

  /** The file step of a commit: a duplicate's part is dropped, a new object's is renamed. */
  function PlaceFile(s: Store, part: Uuid, owner: Uuid): Store {
    if owner != part || part !in s.parts then
      s.(parts := s.parts - {part})
    else
      s.(objects := s.objects[part := s.parts[part]], parts := s.parts - {part})
  }

  /** `commit_part`: describe the part, add the object, then settle the file. */
  ghost function CommitPart(probe: Probe, s: Store, bucket: Uuid, part: Uuid): Result<Commit> {
    if part !in s.parts then
      Err(PartMissing)
    else
      match AddObject(s.tables, bucket, part, Describe(probe, s.parts[part]))
      case Err(e) => Err(e)
      case Ok(Added(t, owner)) => Ok(Commit(PlaceFile(s.(tables := t), part, owner), owner))
  }

  ghost function PruneStore(s: Store): Store {
    var Pruned(t, gone) := RemoveOrphans(s.tables);
    s.(tables := t, objects := s.objects - gone.Keys)
  }

  /** `check`, when reading some of the objects throws. */
  ghost function CheckStore(probe: Probe, s: Store, faults: map<Uuid, Option<string>>): Store {
    var rows := s.tables.objects;
    s.(tables := s.tables.(errors := Failures(rows, Verdicts(probe, Disk(rows.Keys, s.objects, faults), rows))))
  }

  datatype Download = Download(row: Row, data: Bytes)

  /** `get_object`: the metadata through the bucket, then the object's file. */
  function GetObject(s: Store, bucket: Uuid, id: Uuid): Result<Download> {
    if Link(bucket, id) !in s.tables.links || id !in s.tables.objects then
      Err(NotFound)
    else if id !in s.objects then
      Err(FileMissing)
    else
      Ok(Download(s.tables.objects[id], s.objects[id]))
  }

  datatype Op =
    | Append(part: Uuid, data: Bytes)
    | Finish(bucket: Uuid, part: Uuid)
    | Change(edit: Edit)
    | Sweep
    | Check(faults: map<Uuid, Option<string>>)

  ghost function Apply(probe: Probe, s: Store, op: Op): Store {
    match op
    case Append(part, data) => WritePart(s, part, data)
    case Finish(bucket, part) =>
      var r := CommitPart(probe, s, bucket, part);
      if r.Ok? then r.value.store else s
    case Change(edit) => s.(tables := ApplyEdit(s.tables, edit))
    case Sweep => PruneStore(s)
    case Check(faults) => CheckStore(probe, s, faults)
  }

  ghost function ApplyAll(probe: Probe, s: Store, ops: seq<Op>): Store
    decreases |ops|
  {
    if ops == [] then s else ApplyAll(probe, Apply(probe, s, ops[0]), ops[1..])
  }

  // Agreement between the database and the files

  /** Exactly the rows have files, with the rows' checksums. */
  ghost predicate Agrees(probe: Probe, s: Store) {
    && Consistent(s.tables)
    && s.objects.Keys == s.tables.objects.Keys
    && (forall id :: id in s.objects ==> probe.hash(s.objects[id]) == s.tables.objects[id].hash)
  }

  /** Every row describes its file in full: checksum, size and type. */
  ghost predicate Describes(probe: Probe, s: Store) {
    forall id :: id in s.objects && id in s.tables.objects ==>
      s.tables.objects[id] == Describe(probe, s.objects[id])
  }

  /** All cases of (part present) x (id known) x (hash known) x (bucket exists). */
  lemma CommitCases(probe: Probe, s: Store, bucket: Uuid, part: Uuid)
    requires Agrees(probe, s)
    ensures var r := CommitPart(probe, s, bucket, part);
            && (r.Ok? <==> && part in s.parts && bucket in s.tables.buckets
                           && (part in s.objects ==> Known(s.tables.objects, probe.hash(s.parts[part]))))
            && (r.Err? ==> r.error == if part !in s.parts then PartMissing
                                      else if part in s.objects && !Known(s.tables.objects, probe.hash(s.parts[part]))
                                      then NotNullViolation else ForeignKeyViolation)
    ensures CommitPart(probe, s, bucket, part).Ok? ==>
            var Commit(s', o) := CommitPart(probe, s, bucket, part).value;
            && Agrees(probe, s')
            && Returned(s'.tables, bucket, probe.hash(s.parts[part])) == {o}
            && s'.parts == s.parts - {part}
            && s'.tables.buckets == s.tables.buckets
            && s'.tables.links == s.tables.links + {Link(bucket, o)}
            && probe.hash(s'.objects[o]) == probe.hash(s.parts[part])
            && (forall id :: id in s.objects ==>
                  && id in s'.objects
                  && s'.tables.objects[id] == s.tables.objects[id]
                  && probe.hash(s'.objects[id]) == probe.hash(s.objects[id])
                  && (id != part ==> s'.objects[id] == s.objects[id]))
            && (forall id :: id in s'.objects && id !in s.objects ==>
                  id == o == part && s'.objects[id] == s.parts[part])
  {
    if part in s.parts {
      var row := Describe(probe, s.parts[part]);
      AddObjectCases(s.tables, bucket, part, row);
    }
  }

  /** A commit of content that is not stored yet records it under the part's id, with its
      checksum, its size and its type. */
  lemma CommittedRow(probe: Probe, s: Store, bucket: Uuid, part: Uuid)
    requires Agrees(probe, s) && CommitPart(probe, s, bucket, part).Ok?
    requires !Known(s.tables.objects, probe.hash(s.parts[part]))
    ensures var Commit(s', o) := CommitPart(probe, s, bucket, part).value;
            var data := s.parts[part];
            && o == part && part !in s.tables.objects
            && s'.tables.objects.Keys == s.tables.objects.Keys + {part}
            && s'.objects[part] == data
            && s'.tables.objects[part].hash == probe.hash(data)
            && s'.tables.objects[part].size == |data|
            && s'.tables.objects[part].mime.mediaType == MimeType(probe, data).mediaType
            && s'.tables.objects[part].mime.subtype == MimeType(probe, data).subtype
  {
    CommitCases(probe, s, bucket, part);
    AddObjectCases(s.tables, bucket, part, Describe(probe, s.parts[part]));
  }

  lemma PruneAgrees(probe: Probe, s: Store)
    requires Agrees(probe, s)
    ensures Agrees(probe, PruneStore(s))
  {
    PruneExact(s.tables);
  }

  /** The texts of those exceptions that have one, for the given objects. */
  function FaultTexts(ids: set<Uuid>, faults: map<Uuid, Option<string>>): map<Uuid, string> {
    map id | id in ids && id in faults && FaultText(faults[id]) != "" :: FaultText(faults[id])
  }

  lemma FailuresAreFaults(rows: map<Uuid, Row>, verdict: map<Uuid, string>, faults: map<Uuid, Option<string>>)
    requires verdict.Keys == rows.Keys
    requires forall id :: id in rows ==> verdict[id] == if id in faults then FaultText(faults[id]) else ""
    ensures Failures(rows, verdict) == FaultTexts(rows.Keys, faults)
  {
  }

  lemma FaultVerdicts(probe: Probe, s: Store, faults: map<Uuid, Option<string>>)
    requires Agrees(probe, s)
    ensures var verdict := Verdicts(probe, Disk(s.tables.objects.Keys, s.objects, faults), s.tables.objects);
            forall id :: id in s.tables.objects ==>
              verdict[id] == if id in faults then FaultText(faults[id]) else ""
  {
  }

  /** Checking a store whose files agree with its rows records exactly the objects that
      could not be read; nothing that was recorded before stays. */
  lemma CheckFindsFaults(probe: Probe, s: Store, faults: map<Uuid, Option<string>>)
    requires Agrees(probe, s)
    ensures CheckStore(probe, s, faults).tables.errors == FaultTexts(s.objects.Keys, faults)
  {
    FaultVerdicts(probe, s, faults);
    FailuresAreFaults(
      s.tables.objects, Verdicts(probe, Disk(s.tables.objects.Keys, s.objects, faults), s.tables.objects), faults);
  }

  /** What a check leaves on record about an object, in any store at all: that its file is
      missing, or has another checksum, or the text of the exception that reading it threw;
      and nothing when there is nothing of the kind. */
  lemma CheckSaysExactly(probe: Probe, s: Store, faults: map<Uuid, Option<string>>, id: Uuid)
    requires id in s.tables.objects
    ensures var errors := CheckStore(probe, s, faults).tables.errors;
            && (id !in faults ==>
                  (id in errors <==> id !in s.objects || probe.hash(s.objects[id]) != s.tables.objects[id].hash)
                  && (id in errors ==> errors[id] == if id in s.objects then "hash mismatch" else "file missing"))
            && (id in faults && faults[id] == None ==> id in errors && errors[id] == "unknown error")
            && (id in faults && faults[id].Some? ==>
                  (id in errors <==> faults[id].value != "") && (id in errors ==> errors[id] == faults[id].value))
  {
    assert id in Disk(s.tables.objects.Keys, s.objects, faults);
  }

  /** The same for all objects at once; a check writes about stored objects only, and nowhere
      but in the error table. */
  lemma CheckSaysAll(probe: Probe, s: Store, faults: map<Uuid, Option<string>>)
    ensures var s' := CheckStore(probe, s, faults);
            var rows, errors := s.tables.objects, s'.tables.errors;
            && s' == s.(tables := s.tables.(errors := errors))
            && errors.Keys <= rows.Keys
            && (forall id :: id in rows && id !in faults ==>
                  && (id in errors <==> id !in s.objects || probe.hash(s.objects[id]) != rows[id].hash)
                  && (id in errors ==> errors[id] == if id in s.objects then "hash mismatch" else "file missing"))
            && (forall id :: id in rows && id in faults ==>
                  && (id in errors <==> faults[id] != Some(""))
                  && (id in errors ==> errors[id] == if faults[id].Some? then faults[id].value else "unknown error"))
  {
    forall id | id in s.tables.objects {
      CheckSaysExactly(probe, s, faults, id);
    }
  }

  lemma CheckAgrees(probe: Probe, s: Store, faults: map<Uuid, Option<string>>)
    requires Agrees(probe, s)
    ensures Agrees(probe, CheckStore(probe, s, faults))
  {
  }

  lemma ApplyAgrees(probe: Probe, s: Store, op: Op)
    requires Agrees(probe, s)
    ensures Agrees(probe, Apply(probe, s, op))
  {
    match op
    case Append(_, _) =>
    case Finish(bucket, part) => CommitCases(probe, s, bucket, part);
    case Change(edit) => EditKeeps(s.tables, edit);
    case Sweep => PruneAgrees(probe, s);
    case Check(faults) => CheckAgrees(probe, s, faults);
  }

  lemma {:induction false} AgreementIsKept(probe: Probe, s: Store, ops: seq<Op>)
    requires Agrees(probe, s)
    ensures Agrees(probe, ApplyAll(probe, s, ops))
    decreases |ops|
  {
    if ops != [] {
      ApplyAgrees(probe, s, ops[0]);
      AgreementIsKept(probe, Apply(probe, s, ops[0]), ops[1..]);
    }
  }

  lemma {:induction false} DescriptionsAreKept(probe: Probe, s: Store, ops: seq<Op>)
    requires Injective(probe) && Agrees(probe, s) && Describes(probe, s)
    ensures Describes(probe, ApplyAll(probe, s, ops))
    decreases |ops|
  {
    if ops != [] {
      ApplyAgrees(probe, s, ops[0]);
      match ops[0] {
        case Finish(bucket, part) =>
          if CommitPart(probe, s, bucket, part).Ok? {
            CommitDescribes(probe, s, bucket, part);
          }
        case Change(edit) => EditKeeps(s.tables, edit);
        case _ =>
      }
      DescriptionsAreKept(probe, Apply(probe, s, ops[0]), ops[1..]);
    }
  }

  lemma CleanStepRecordsNothing(probe: Probe, s: Store, op: Op)
    requires Agrees(probe, s) && s.tables.errors == map[]
    requires op.Check? ==> op.faults == map[]
    ensures Apply(probe, s, op).tables.errors == map[]
  {
    match op
    case Finish(bucket, part) => CommitCases(probe, s, bucket, part);
    case Change(edit) => EditKeeps(s.tables, edit);
    case Check(_) => CheckFindsFaults(probe, s, map[]);
    case _ =>
  }

  /** Errors on record come from checks that met exceptions. */
  lemma {:induction false} CleanChecksRecordNothing(probe: Probe, s: Store, ops: seq<Op>)
    requires Agrees(probe, s) && s.tables.errors == map[]
    requires forall op :: op in ops && op.Check? ==> op.faults == map[]
    ensures ApplyAll(probe, s, ops).tables.errors == map[]
    decreases |ops|
  {
    if ops != [] {
      ApplyAgrees(probe, s, ops[0]);
      CleanStepRecordsNothing(probe, s, ops[0]);
      CleanChecksRecordNothing(probe, Apply(probe, s, ops[0]), ops[1..]);
    }
  }

  /** Whatever operations are run, with whatever part ids, failing or not: the object files
      are those of the rows, each with its row's checksum, and a check that can read them
      leaves no error. With a checksum that separates contents, sizes and types agree as
      well. */
  lemma ReachableStoreAgrees(probe: Probe, ops: seq<Op>)
    ensures var s := ApplyAll(probe, EmptyStore, ops);
            && Agrees(probe, s)
            && CheckStore(probe, s, map[]) == s.(tables := s.tables.(errors := map[]))
            && ((forall op :: op in ops && op.Check? ==> op.faults == map[]) ==> s.tables.errors == map[])
            && (Injective(probe) ==> Describes(probe, s))
  {
    AgreementIsKept(probe, EmptyStore, ops);
    CheckFindsFaults(probe, ApplyAll(probe, EmptyStore, ops), map[]);
    if forall op :: op in ops && op.Check? ==> op.faults == map[] {
      CleanChecksRecordNothing(probe, EmptyStore, ops);
    }
    if Injective(probe) {
      DescriptionsAreKept(probe, EmptyStore, ops);
    }
  }

  /** Exactly when a commit keeps descriptions right, for any checksum: the part may not
      have the id and checksum of a stored object and differ from it in size or type. */
  lemma CommitDescribes(probe: Probe, s: Store, bucket: Uuid, part: Uuid)
    requires Agrees(probe, s) && Describes(probe, s)
    requires CommitPart(probe, s, bucket, part).Ok?
    ensures Describes(probe, CommitPart(probe, s, bucket, part).value.store) <==>
            (part in s.objects && probe.hash(s.parts[part]) == probe.hash(s.objects[part]) ==>
             |s.parts[part]| == |s.objects[part]| && MimeType(probe, s.parts[part]) == MimeType(probe, s.objects[part]))
  {
    CommitCases(probe, s, bucket, part);
    var Commit(s', o) := CommitPart(probe, s, bucket, part).value;
    if part in s.objects {
      OwnerIsUnique(s.tables.objects, part);
      assert o == part <==> probe.hash(s.parts[part]) == probe.hash(s.objects[part]);
      assert o == part ==> s'.objects[part] == s.parts[part];
    }
    forall id | id in s'.objects && id != part
      ensures s'.tables.objects[id] == Describe(probe, s'.objects[id])
    {
      assert id in s.objects;
    }
  }

  /** Without that hypothesis a row's size can be wrong: committing again under the id of
      an object, with other contents of the same checksum, replaces only the file. */
  lemma CollisionBreaksSize(probe: Probe, s: Store, bucket: Uuid, part: Uuid, other: Bytes)
    requires Agrees(probe, s) && Describes(probe, s) && bucket in s.tables.buckets
    requires part in s.objects && part !in s.parts
    requires probe.hash(other) == probe.hash(s.objects[part]) && |other| != |s.objects[part]|
    ensures var s' := ApplyAll(probe, s, [Append(part, other), Finish(bucket, part)]);
            && Agrees(probe, s')
            && part in s'.objects && s'.objects[part] == other
            && s'.tables.objects[part].size != |s'.objects[part]|
  {
    var w := Apply(probe, s, Append(part, other));
    var ops := [Append(part, other), Finish(bucket, part)];
    assert ops[1..] == [Finish(bucket, part)] && ops[1..][1..] == [];
    assert w.parts[part] == [] + other == other;
    OwnerIsUnique(s.tables.objects, part);
    CommitCases(probe, w, bucket, part);
    var s' := Apply(probe, w, Finish(bucket, part));
    assert ApplyAll(probe, s, ops) == ApplyAll(probe, w, ops[1..]) == ApplyAll(probe, s', []) == s';
  }

  lemma OneObjectAgrees(probe: Probe, s: Store, id: Uuid, data: Bytes)
    requires s.tables.objects == map[id := Describe(probe, data)] && s.objects == map[id := data]
    requires UniqueNames(s.tables.buckets) && s.tables.links == {} && s.tables.errors == map[]
    ensures Agrees(probe, s) && Describes(probe, s)
  {
  }

  /** A run from a store whose rows describe their files to one whose rows do not. */
  ghost predicate BreaksRows(probe: Probe, s: Store, ops: seq<Op>) {
    && Agrees(probe, s) && Describes(probe, s)
    && Agrees(probe, ApplyAll(probe, s, ops)) && !Describes(probe, ApplyAll(probe, s, ops))
  }

  /** Such a collision with an empty file, under any checksum that has one. */
  lemma CollisionRun(probe: Probe, other: Bytes) returns (s: Store, ops: seq<Op>)
    requires other != [] && probe.hash(other) == probe.hash([])
    ensures BreaksRows(probe, s, ops)
  {
    var bucket, id := Uuid("bucket"), Uuid("object");
    s := Store(Tables(map[bucket := "name"], map[id := Describe(probe, [])], {}, map[]), map[id := []], map[]);
    OneObjectAgrees(probe, s, id, []);
    ops := [Append(id, other), Finish(bucket, id)];
    CollisionBreaksSize(probe, s, bucket, id, other);
  }

  /** So it can happen: with a checksum that is always the same. */
  lemma CollisionExample() returns (probe: Probe, s: Store, ops: seq<Op>)
    ensures BreaksRows(probe, s, ops)
  {
    probe := Probe(data => "same", data => "text/plain");
    s, ops := CollisionRun(probe, [0]);
  }
}
