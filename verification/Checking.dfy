/** Checking one stored object against its file, and the sequential check of them all. */
module Checking {
  import opened Base
  import opened Relations
  import opened RelationLaws

  /** What reading an object's file comes to. An exception has a text unless it is not a
      `std::exception`. */
  datatype FileState = Absent | Readable(data: Bytes) | Throws(what: Option<string>)

  /** The message of a check that ends in an exception. */
  function FaultText(what: Option<string>): string {
    match what
    case Some(text) => text
    case None => "unknown error"
  }

  /** `check_object`: the empty message means that the object passed. */
  function CheckObject(probe: Probe, file: FileState, row: Row): string {
    match file
    case Absent => "file missing"
    case Readable(data) => if probe.hash(data) != row.hash then "hash mismatch" else ""
    case Throws(what) => FaultText(what)
  }

  /** An object passes exactly when its file is there with the row's checksum, or when
      reading it throws an exception whose text is empty. */
  lemma PassesExactly(probe: Probe, file: FileState, row: Row)
    ensures CheckObject(probe, file, row) == ""
       <==> file == Throws(Some("")) || (file.Readable? && probe.hash(file.data) == row.hash)
  {
  }

  /** What reading finds of the given objects; `faults` are those that throw. */
  function Disk(ids: set<Uuid>, files: map<Uuid, Bytes>, faults: map<Uuid, Option<string>>): map<Uuid, FileState> {
    map id | id in ids ::
      if id in faults then Throws(faults[id]) else if id in files then Readable(files[id]) else Absent
  }

  /** What `check_object` says of every stored object. */
  function Verdicts(probe: Probe, disk: map<Uuid, FileState>, rows: map<Uuid, Row>): map<Uuid, string>
    requires rows.Keys <= disk.Keys
  {
    map id | id in rows :: CheckObject(probe, disk[id], rows[id])
  }

  /** The error table a check should leave: the failing objects with their messages. */
  ghost function Failures(objects: map<Uuid, Row>, verdict: map<Uuid, string>): map<Uuid, string>
    requires verdict.Keys == objects.Keys
  {
    map id | id in verdict && verdict[id] != "" :: verdict[id]
  }

  /** The plain check: one object after another, one record at a time. */
  ghost function CheckEach(t: Tables, ids: seq<Uuid>, verdict: map<Uuid, string>): Tables
    requires forall id :: id in ids ==> id in verdict
    decreases |ids|
  {
    if ids == [] then
      t
    else
      var r := UpdateErrors(t, [Record(ids[0], verdict[ids[0]])]);
      CheckEach(if r.Ok? then r.value else t, ids[1..], verdict)
  }

  lemma {:induction false} CheckEachExact(t: Tables, ids: seq<Uuid>, verdict: map<Uuid, string>)
    requires forall id :: id in ids ==> id in verdict
    requires verdict.Keys == t.objects.Keys
    ensures var t' := CheckEach(t, ids, verdict);
            && t' == t.(errors := t'.errors)
            && (forall id :: id in ids ==> Reported(t'.errors, id, verdict[id]))
            && (forall id :: id !in ids ==> SameEntry(t.errors, t'.errors, id))
    decreases |ids|
  {
    if ids != [] {
      var record := Record(ids[0], verdict[ids[0]]);
      UpdateErrorsExact(t, [record]);
      var next := UpdateErrors(t, [record]).value;
      assert record in [record];
      CheckEachExact(next, ids[1..], verdict);
      var t' := CheckEach(next, ids[1..], verdict);
      forall id | id !in ids[1..]
        ensures if id == ids[0] then Reported(t'.errors, id, verdict[id]) else SameEntry(t.errors, t'.errors, id)
      {
        assert SameEntry(next.errors, t'.errors, id);
        assert id != ids[0] ==> !Mentions([record], id);
      }
    }
  }

  /** Checking every stored object leaves exactly the failures, whatever was there before. */
  lemma CheckEachIsFailures(t: Tables, ids: seq<Uuid>, verdict: map<Uuid, string>)
    requires Consistent(t) && verdict.Keys == t.objects.Keys
    requires forall id :: id in ids <==> id in t.objects
    ensures CheckEach(t, ids, verdict) == t.(errors := Failures(t.objects, verdict))
  {
    CheckEachExact(t, ids, verdict);
    var t' := CheckEach(t, ids, verdict);
    forall id
      ensures id in t'.errors <==> id in Failures(t.objects, verdict)
      ensures id in t'.errors ==> t'.errors[id] == Failures(t.objects, verdict)[id]
    {
      assert if id in ids then Reported(t'.errors, id, verdict[id]) else SameEntry(t.errors, t'.errors, id);
    }
    assert t'.errors == Failures(t.objects, verdict);
  }
}
