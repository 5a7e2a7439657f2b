/** The counting queries: sizes of buckets, of removals and of the whole store, and
    the conservation laws between them. */
module Accounting {
  import opened Base
  import opened Relations
  import opened RelationLaws
  import opened Sums

  // Queries

  ghost function SizeIn(objects: map<Uuid, Row>): Uuid -> nat {
    id => if id in objects then objects[id].size else 0
  }

  /** `space_used` of the view `bucket`, before its cast. */
  ghost function SpaceUsed(t: Tables, bucket: Uuid): nat {
    Sum(Contents(t, bucket), SizeIn(t.objects))
  }

  ghost function SpaceOf(t: Tables): Uuid -> nat {
    b => SpaceUsed(t, b)
  }

  /** `space_used` of `fetch_store_totals`, before its cast. */
  ghost function TotalSize(t: Tables): nat {
    Sum(t.objects.Keys, SizeIn(t.objects))
  }

  datatype StoreTotals = StoreTotals(buckets: nat, objects: nat, spaceUsed: nat)

  ghost function FetchStoreTotals(t: Tables): Result<StoreTotals> {
    match ToBigint(TotalSize(t))
    case Ok(n) => Ok(StoreTotals(|t.buckets|, |t.objects|, n))
    case Err(e) => Err(e)
  }

  datatype RemoveResult = RemoveResult(objectsRemoved: nat, spaceFreed: nat)

  datatype Removal = Removal(tables: Tables, removed: RemoveResult)

  /** The members of `ids` that the bucket holds. */
  function Held(t: Tables, bucket: Uuid, ids: seq<Uuid>): set<Uuid> {
    set o | o in ids && Link(bucket, o) in t.links
  }

  function Unlink(t: Tables, bucket: Uuid, gone: set<Uuid>): Tables {
    t.(links := set l | l in t.links && !(l.bucketId == bucket && l.objectId in gone))
  }

  /** `remove_objects`: one DELETE, reporting the count and the cast sum of sizes. */
  ghost function RemoveObjects(t: Tables, bucket: Uuid, ids: seq<Uuid>): Result<Removal> {
    var gone := Held(t, bucket, ids);
    match ToBigint(Sum(gone, SizeIn(t.objects)))
    case Ok(n) => Ok(Removal(Unlink(t, bucket, gone), RemoveResult(|gone|, n)))
    case Err(e) => Err(e)
  }

  // The reported totals

  /** The totals are reported if and only if their sum is below 2^63. */
  lemma TotalsReported(t: Tables)
    ensures FetchStoreTotals(t).Ok? <==> TotalSize(t) < 0x8000_0000_0000_0000
    ensures FetchStoreTotals(t).Err? ==> FetchStoreTotals(t).error == OutOfRange
    ensures FetchStoreTotals(EmptyTables) == Ok(StoreTotals(0, 0, 0))
  {
  }

  /** A new bucket adds one to the reported buckets, and nothing else. */
  lemma CreateBucketTotals(t: Tables, id: Uuid, name: string)
    requires CreateBucket(t, id, name).Ok? && FetchStoreTotals(t).Ok?
    ensures var totals := FetchStoreTotals(t).value;
            FetchStoreTotals(CreateBucket(t, id, name).value) == Ok(totals.(buckets := totals.buckets + 1))
  {
    var t' := CreateBucket(t, id, name).value;
    OneLess(t'.buckets, id);
    assert t'.buckets - {id} == t.buckets;
    SmallerReport(t, t');
  }

  /** A rename changes no total. */
  lemma RenameBucketTotals(t: Tables, id: Uuid, name: string)
    requires RenameBucket(t, id, name).Ok? && FetchStoreTotals(t).Ok?
    ensures FetchStoreTotals(RenameBucket(t, id, name).value) == FetchStoreTotals(t)
  {
    var t' := RenameBucket(t, id, name).value;
    OneLess(t'.buckets, id);
    OneLess(t.buckets, id);
    assert t'.buckets - {id} == t.buckets - {id};
    SmallerReport(t, t');
  }

  /** Dropping a stored bucket takes one from the reported buckets, and nothing else. */
  lemma RemoveBucketTotals(t: Tables, id: Uuid)
    requires FetchStoreTotals(t).Ok?
    ensures var totals := FetchStoreTotals(t).value;
            if id in t.buckets then
              totals.buckets > 0
              && FetchStoreTotals(RemoveBucket(t, id)) == Ok(totals.(buckets := totals.buckets - 1))
            else
              FetchStoreTotals(RemoveBucket(t, id)) == Ok(totals)
  {
    var t' := RemoveBucket(t, id);
    OneLess(t.buckets, id);
    SmallerReport(t, t');
  }

  /** What is reported of a store no larger than one that is reported. */
  lemma SmallerReport(t: Tables, t': Tables)
    requires FetchStoreTotals(t).Ok? && TotalSize(t') <= TotalSize(t)
    ensures FetchStoreTotals(t') == Ok(StoreTotals(|t'.buckets|, |t'.objects|, TotalSize(t')))
    ensures FetchStoreTotals(t) == Ok(StoreTotals(|t.buckets|, |t.objects|, TotalSize(t)))
  {
  }

  lemma OneLess(m: map<Uuid, string>, id: Uuid)
    ensures |m| == |m - {id}| + (if id in m then 1 else 0)
  {
    var fewer := m - {id};
    assert fewer.Keys == m.Keys - {id};
    assert |fewer| == |fewer.Keys| && |m| == |m.Keys|;
  }

  /** Taking objects out of a bucket leaves the totals alone. */
  lemma UnlinkingTotals(t: Tables, bucket: Uuid, id: Uuid, ids: seq<Uuid>)
    ensures RemoveObject(t, bucket, id).Ok? ==>
              FetchStoreTotals(RemoveObject(t, bucket, id).value) == FetchStoreTotals(t)
    ensures RemoveObjects(t, bucket, ids).Ok? ==>
              FetchStoreTotals(RemoveObjects(t, bucket, ids).value.tables) == FetchStoreTotals(t)
  {
  }

  // Double counting

  ghost function LinkSize(t: Tables): Link -> nat {
    (l: Link) => SizeIn(t.objects)(l.objectId)
  }

  function Times(size: nat, n: nat): nat {
    size * n
  }

  function BeyondFirst(n: nat): nat {
    if n == 0 then 0 else n - 1
  }

  ghost function ReferencedSize(t: Tables): Uuid -> nat {
    o => Times(SizeIn(t.objects)(o), ReferenceCount(t, o))
  }

  /** The space the references to an object beyond the first would cost without sharing. */
  ghost function SharedSize(t: Tables): Uuid -> nat {
    o => Times(SizeIn(t.objects)(o), BeyondFirst(ReferenceCount(t, o)))
  }

  lemma SpaceUsedByLinks(t: Tables, bucket: Uuid)
    ensures SpaceUsed(t, bucket) == Sum(LinksOf(t, bucket), LinkSize(t))
    ensures |Contents(t, bucket)| == |LinksOf(t, bucket)|
  {
    var links := LinksOf(t, bucket);
    var target := (l: Link) => l.objectId;
    SumImage(links, target, SizeIn(t.objects), LinkSize(t));
    assert Contents(t, bucket) == Image(links, target) by {
      forall o | o in Contents(t, bucket) ensures o in Image(links, target) {
        assert target(Link(bucket, o)) == o && Link(bucket, o) in links;
      }
    }
  }

  /** Both groupings of the links, by bucket and by object, give the same sum. */
  lemma DoubleCounting(t: Tables)
    requires Consistent(t)
    ensures Sum(t.buckets.Keys, SpaceOf(t)) == Sum(t.objects.Keys, ReferencedSize(t))
  {
    var byBucket, byObject := (l: Link) => l.bucketId, (l: Link) => l.objectId;
    forall b | b in t.buckets.Keys
      ensures SpaceOf(t)(b) == Sum(Class(t.links, byBucket, b), LinkSize(t))
    {
      SpaceUsedByLinks(t, b);
      assert Class(t.links, byBucket, b) == LinksOf(t, b);
    }
    SumGroup(t.links, t.buckets.Keys, byBucket, LinkSize(t), SpaceOf(t));
    forall o | o in t.objects.Keys
      ensures ReferencedSize(t)(o) == Sum(Class(t.links, byObject, o), LinkSize(t))
    {
      assert Class(t.links, byObject, o) == LinksTo(t, o);
      SumConst(LinksTo(t, o), LinkSize(t), SizeIn(t.objects)(o));
    }
    SumGroup(t.links, t.objects.Keys, byObject, LinkSize(t), ReferencedSize(t));
  }

  /** What sharing saves, exactly: the buckets' sizes and the orphans' together are the
      store's size plus every reference beyond an object's first. */
  lemma SharingBalance(t: Tables)
    requires Consistent(t)
    ensures Sum(t.buckets.Keys, SpaceOf(t)) + Sum(Orphans(t), SizeIn(t.objects))
         == TotalSize(t) + Sum(t.objects.Keys, SharedSize(t))
  {
    var all, orphans := t.objects.Keys, Orphans(t);
    DoubleCounting(t);
    SplitOrphans(t, SizeIn(t.objects));
    SplitOrphans(t, SharedSize(t));
    SplitOrphans(t, ReferencedSize(t));
    SumConst(orphans, SharedSize(t), 0);
    SumConst(orphans, ReferencedSize(t), 0);
    forall o | o in all - orphans
      ensures ReferencedSize(t)(o) == SizeIn(t.objects)(o) + SharedSize(t)(o)
    {
      FirstAndRest(SizeIn(t.objects)(o), ReferenceCount(t, o));
    }
    SumAdd(all - orphans, SizeIn(t.objects), SharedSize(t), ReferencedSize(t));
  }

  lemma SplitOrphans(t: Tables, f: Uuid -> nat)
    ensures Sum(t.objects.Keys, f) == Sum(Orphans(t), f) + Sum(t.objects.Keys - Orphans(t), f)
  {
    SumSplit(Orphans(t), t.objects.Keys, f);
  }

  lemma FirstAndRest(size: nat, n: nat)
    requires n > 0
    ensures Times(size, n) == size + Times(size, BeyondFirst(n))
  {
  }

  // Bounds

  /** No bucket, and no part of a bucket, is larger than the store. */
  lemma PartOfStore(t: Tables, ids: set<Uuid>)
    requires ids <= t.objects.Keys
    ensures Sum(ids, SizeIn(t.objects)) <= TotalSize(t)
  {
    SumSplit(ids, t.objects.Keys, SizeIn(t.objects));
  }

  /** When the store's total can be reported, every bucket and every removal can. */
  lemma TotalBoundsEverySum(t: Tables, bucket: Uuid, ids: seq<Uuid>)
    requires Consistent(t) && FetchStoreTotals(t).Ok?
    ensures FitsBigint(SpaceUsed(t, bucket))
    ensures RemoveObjects(t, bucket, ids).Ok?
  {
    PartOfStore(t, Contents(t, bucket));
    PartOfStore(t, Held(t, bucket, ids));
  }

  // Removing

  lemma UnlinkContents(t: Tables, bucket: Uuid, gone: set<Uuid>, b: Uuid)
    ensures Contents(Unlink(t, bucket, gone), b)
         == if b == bucket then Contents(t, b) - gone else Contents(t, b)
  {
    var t' := Unlink(t, bucket, gone);
    forall o | o in Contents(t, b) && (b != bucket || o !in gone)
      ensures o in Contents(t', b)
    {
      assert Link(b, o) in t'.links;
    }
  }

  /** `remove_objects` takes out of the bucket exactly the listed ids it held, reports
      exactly the bucket's loss, and touches nothing else. */
  lemma RemoveObjectsBalance(t: Tables, bucket: Uuid, ids: seq<Uuid>)
    requires Consistent(t) && RemoveObjects(t, bucket, ids).Ok?
    ensures var Removal(t', r) := RemoveObjects(t, bucket, ids).value;
            && Consistent(t')
            && t'.buckets == t.buckets && t'.objects == t.objects && t'.errors == t.errors
            && (forall b :: Contents(t', b) ==
                  if b == bucket then Contents(t, b) - (set o | o in ids) else Contents(t, b))
            && |Contents(t, bucket)| == |Contents(t', bucket)| + r.objectsRemoved
            && SpaceUsed(t, bucket) == SpaceUsed(t', bucket) + r.spaceFreed
  {
    var Removal(t', r) := RemoveObjects(t, bucket, ids).value;
    var gone := Held(t, bucket, ids);
    forall b ensures Contents(t', b) ==
                  if b == bucket then Contents(t, b) - (set o | o in ids) else Contents(t, b)
    {
      UnlinkContents(t, bucket, gone, b);
      forall o | o in Contents(t, bucket) && o in ids ensures o in gone {
        assert Link(bucket, o) in t.links;
      }
    }
    assert gone <= Contents(t, bucket) by {
      forall o | o in gone ensures o in Contents(t, bucket) {
        assert Link(bucket, o) in t.links;
      }
    }
    UnlinkContents(t, bucket, gone, bucket);
    SumSplit(gone, Contents(t, bucket), SizeIn(t.objects));
  }

  /** Removing a list one id at a time, skipping those not found. */
  ghost function RemoveEach(t: Tables, bucket: Uuid, ids: seq<Uuid>): Removal
    decreases |ids|
  {
    if ids == [] then
      Removal(t, RemoveResult(0, 0))
    else
      var id := ids[0];
      match RemoveObject(t, bucket, id)
      case Err(_) => RemoveEach(t, bucket, ids[1..])
      case Ok(t') =>
        var Removal(t'', r) := RemoveEach(t', bucket, ids[1..]);
        Removal(t'', RemoveResult(r.objectsRemoved + 1, r.spaceFreed + SizeIn(t.objects)(id)))
  }

  /** Single removal: exactly that link goes, or there was none. */
  lemma RemoveObjectExact(t: Tables, bucket: Uuid, id: Uuid)
    requires Consistent(t)
    ensures if id in Contents(t, bucket) then
              var r := RemoveObject(t, bucket, id);
              && r.Ok? && Consistent(r.value) && r.value == t.(links := r.value.links)
              && forall b :: Contents(r.value, b) == if b == bucket then Contents(t, b) - {id} else Contents(t, b)
            else
              RemoveObject(t, bucket, id) == Err(NotFound)
  {
    if Link(bucket, id) in t.links {
      var t' := RemoveObject(t, bucket, id).value;
      forall b, o | Link(b, o) in t.links && !(b == bucket && o == id) ensures Link(b, o) in t'.links { }
      forall b ensures Contents(t', b) == if b == bucket then Contents(t, b) - {id} else Contents(t, b) {
        forall o | o in Contents(t, b) && !(b == bucket && o == id) ensures o in Contents(t', b) {
          assert Link(b, o) in t'.links;
        }
      }
    }
  }

  lemma UnlinkNothing(t: Tables, bucket: Uuid)
    ensures Unlink(t, bucket, {}) == t
  {
    assert Unlink(t, bucket, {}).links == t.links;
  }

  lemma UnlinkOneFirst(t: Tables, bucket: Uuid, id: Uuid, gone: set<Uuid>)
    requires id in gone
    ensures var t' := t.(links := t.links - {Link(bucket, id)});
            Unlink(t', bucket, gone - {id}) == Unlink(t, bucket, gone)
  {
    var t' := t.(links := t.links - {Link(bucket, id)});
    assert Unlink(t', bucket, gone - {id}).links == Unlink(t, bucket, gone).links;
  }

  lemma HeldStep(t: Tables, bucket: Uuid, ids: seq<Uuid>)
    requires ids != []
    ensures var held := Link(bucket, ids[0]) in t.links;
            var t' := t.(links := t.links - {Link(bucket, ids[0])});
            if held then
              ids[0] in Held(t, bucket, ids) && Held(t', bucket, ids[1..]) == Held(t, bucket, ids) - {ids[0]}
            else
              Held(t, bucket, ids[1..]) == Held(t, bucket, ids)
  {
  }

  lemma {:induction false} RemoveEachIsUnlink(t: Tables, bucket: Uuid, ids: seq<Uuid>)
    ensures var gone := Held(t, bucket, ids);
            RemoveEach(t, bucket, ids)
            == Removal(Unlink(t, bucket, gone), RemoveResult(|gone|, Sum(gone, SizeIn(t.objects))))
    decreases |ids|
  {
    var gone := Held(t, bucket, ids);
    if ids == [] {
      assert gone == {};
      UnlinkNothing(t, bucket);
    } else {
      HeldStep(t, bucket, ids);
      var t' := t.(links := t.links - {Link(bucket, ids[0])});
      if Link(bucket, ids[0]) in t.links {
        RemoveEachIsUnlink(t', bucket, ids[1..]);
        UnlinkOneFirst(t, bucket, ids[0], gone);
        SumRemove(gone, SizeIn(t.objects), ids[0]);
      } else {
        RemoveEachIsUnlink(t, bucket, ids[1..]);
      }
    }
  }

  /** Bulk removal is repeated single removal, whenever its sum can be reported at all. */
  lemma BulkIsRepeatedSingle(t: Tables, bucket: Uuid, ids: seq<Uuid>)
    ensures var each := RemoveEach(t, bucket, ids);
            RemoveObjects(t, bucket, ids)
            == if FitsBigint(each.removed.spaceFreed) then Ok(each) else Err(OutOfRange)
  {
    RemoveEachIsUnlink(t, bucket, ids);
  }

  /** Order and repetition in the list do not matter. */
  lemma BulkIgnoresOrder(t: Tables, bucket: Uuid, ids: seq<Uuid>, others: seq<Uuid>)
    requires forall id :: id in ids <==> id in others
    ensures RemoveObjects(t, bucket, ids) == RemoveObjects(t, bucket, others)
    ensures RemoveEach(t, bucket, ids) == RemoveEach(t, bucket, others)
  {
    assert Held(t, bucket, ids) == Held(t, bucket, others);
    RemoveEachIsUnlink(t, bucket, ids);
    RemoveEachIsUnlink(t, bucket, others);
  }

  // Adding

  /** A successful add enlarges its own bucket by the object unless it was there, and
      leaves the other buckets alone. */
  lemma AddObjectSpace(t: Tables, bucket: Uuid, id: Uuid, row: Row, b: Uuid)
    requires Consistent(t) && AddObject(t, bucket, id, row).Ok?
    ensures var Added(t', o) := AddObject(t, bucket, id, row).value;
            && Contents(t', b) == Contents(t, b) + (if b == bucket then {o} else {})
            && SpaceUsed(t', b) == SpaceUsed(t, b)
               + (if b == bucket && o !in Contents(t, b) then t'.objects[o].size else 0)
  {
    var Added(t', o) := AddObject(t, bucket, id, row).value;
    AddObjectCases(t, bucket, id, row);
    ContentsAfterAdd(t, bucket, id, row, b);
    SameSizes(t, t', Contents(t, b));
    if b == bucket {
      AddOne(Contents(t, b), o, SizeIn(t'.objects));
    } else {
      assert Contents(t', b) == Contents(t, b);
    }
  }

  /** The store grows only by content it did not have. */
  lemma AddObjectTotals(t: Tables, bucket: Uuid, id: Uuid, row: Row)
    requires Consistent(t) && AddObject(t, bucket, id, row).Ok?
    ensures var t' := AddObject(t, bucket, id, row).value.tables;
            && TotalSize(t') == TotalSize(t) + (if Known(t.objects, row.hash) then 0 else row.size)
            && |t'.objects| == |t.objects| + (if Known(t.objects, row.hash) then 0 else 1)
  {
    if !Known(t.objects, row.hash) {
      GrowMap(t.objects, id, row);
    }
  }

  /** The reported totals grow by one object and its size, or, for content that is known, not
      at all. */
  lemma AddObjectReported(t: Tables, bucket: Uuid, id: Uuid, row: Row)
    requires Consistent(t) && AddObject(t, bucket, id, row).Ok? && FetchStoreTotals(t).Ok?
    ensures var before, after := FetchStoreTotals(t).value, FetchStoreTotals(AddObject(t, bucket, id, row).value.tables);
            if Known(t.objects, row.hash) then
              after == Ok(before)
            else if before.spaceUsed + row.size < 0x8000_0000_0000_0000 then
              after == Ok(StoreTotals(before.buckets, before.objects + 1, before.spaceUsed + row.size))
            else
              after == Err(OutOfRange)
  {
    AddObjectTotals(t, bucket, id, row);
    AddObjectCases(t, bucket, id, row);
  }

  lemma GrowMap(objects: map<Uuid, Row>, id: Uuid, row: Row)
    requires id !in objects
    ensures var grown := objects[id := row];
            && |grown| == |objects| + 1
            && Sum(grown.Keys, SizeIn(grown)) == Sum(objects.Keys, SizeIn(objects)) + row.size
  {
    var grown := objects[id := row];
    assert grown.Keys == objects.Keys + {id};
    SumAgree(objects.Keys, SizeIn(objects), SizeIn(grown));
    AddOne(objects.Keys, id, SizeIn(grown));
  }

  lemma ContentsAfterAdd(t: Tables, bucket: Uuid, id: Uuid, row: Row, b: Uuid)
    requires Consistent(t) && AddObject(t, bucket, id, row).Ok?
    ensures var Added(t', o) := AddObject(t, bucket, id, row).value;
            Contents(t', b) == Contents(t, b) + (if b == bucket then {o} else {})
    ensures Contents(t, b) <= t.objects.Keys
  {
    var Added(t', o) := AddObject(t, bucket, id, row).value;
    assert t'.links == t.links + {Link(bucket, o)};
    assert Link(bucket, o) in t'.links;
  }

  lemma SameSizes(t: Tables, t': Tables, ids: set<Uuid>)
    requires ids <= t.objects.Keys * t'.objects.Keys
    requires forall o :: o in ids ==> t.objects[o] == t'.objects[o]
    ensures Sum(ids, SizeIn(t.objects)) == Sum(ids, SizeIn(t'.objects))
  {
    SumAgree(ids, SizeIn(t.objects), SizeIn(t'.objects));
  }

  lemma AddOne(s: set<Uuid>, x: Uuid, f: Uuid -> nat)
    ensures Sum(s + {x}, f) == Sum(s, f) + (if x in s then 0 else f(x))
  {
    if x in s {
      assert s + {x} == s;
    } else {
      SumRemove(s + {x}, f, x);
      assert s + {x} - {x} == s;
    }
  }

  // Pruning

  lemma PruneKeepsLinks(t: Tables)
    requires Consistent(t)
    ensures RemoveOrphans(t).tables.links == t.links
    ensures forall b, o :: o in Contents(t, b) ==> o in t.objects && o !in Orphans(t)
  {
    forall l | l in t.links ensures l.objectId !in Orphans(t) {
      assert l in LinksTo(t, l.objectId);
    }
  }

  lemma PruneLeavesNoOrphan(t: Tables)
    requires Consistent(t)
    ensures Orphans(RemoveOrphans(t).tables) == {}
  {
    PruneKeepsLinks(t);
    var t' := RemoveOrphans(t).tables;
    forall o | o in t'.objects ensures o !in Orphans(t') {
      assert LinksTo(t', o) == LinksTo(t, o);
    }
  }

  /** Prune removes exactly the unreferenced objects, with their error records. */
  lemma PruneExact(t: Tables)
    requires Consistent(t)
    ensures var Pruned(t', gone) := RemoveOrphans(t);
            && Consistent(t')
            && (forall o :: o in gone <==> o in t.objects && ReferenceCount(t, o) == 0)
            && (forall o :: o in gone ==> gone[o] == t.objects[o])
            && t'.objects == t.objects - gone.Keys
            && t'.errors == t.errors - gone.Keys
            && t'.buckets == t.buckets && t'.links == t.links
  {
    PruneKeepsLinks(t);
    assert RemoveOrphans(t).removed.Keys == Orphans(t);
  }

  /** A second prune returns nothing and changes nothing. */
  lemma PruneTwice(t: Tables)
    requires Consistent(t)
    ensures RemoveOrphans(RemoveOrphans(t).tables) == Pruned(RemoveOrphans(t).tables, map[])
  {
    PruneLeavesNoOrphan(t);
    PruneNothing(RemoveOrphans(t).tables);
  }

  lemma PruneNothing(t: Tables)
    requires Orphans(t) == {}
    ensures RemoveOrphans(t) == Pruned(t, map[])
  {
    var none := Orphans(t);
    assert t.objects - none == t.objects && t.errors - none == t.errors;
    assert (set l | l in t.links && l.objectId !in none) == t.links;
  }

  /** No bucket can tell that a prune happened. */
  lemma PruneKeepsBuckets(t: Tables, b: Uuid)
    requires Consistent(t)
    ensures Contents(RemoveOrphans(t).tables, b) == Contents(t, b)
    ensures SpaceUsed(RemoveOrphans(t).tables, b) == SpaceUsed(t, b)
  {
    PruneKeepsLinks(t);
    SameSizes(t, RemoveOrphans(t).tables, Contents(t, b));
  }

  /** The totals fall by exactly what the prune returns. */
  lemma PruneBalance(t: Tables, t': Tables, gone: map<Uuid, Row>)
    requires RemoveOrphans(t) == Pruned(t', gone)
    ensures |t.objects| == |t'.objects| + |gone|
    ensures TotalSize(t) == TotalSize(t') + Sum(gone.Keys, SizeIn(gone))
  {
    assert gone.Keys == Orphans(t);
    SplitMap(t.objects, gone, t'.objects);
  }

  /** The reported totals fall by the number and the summed sizes of the pruned rows. */
  lemma PruneReported(t: Tables, t': Tables, gone: map<Uuid, Row>)
    requires RemoveOrphans(t) == Pruned(t', gone) && FetchStoreTotals(t).Ok?
    ensures FetchStoreTotals(t').Ok?
    ensures var before, after := FetchStoreTotals(t).value, FetchStoreTotals(t').value;
            && after.buckets == before.buckets
            && before.objects == after.objects + |gone|
            && before.spaceUsed == after.spaceUsed + Sum(gone.Keys, SizeIn(gone))
  {
    PruneBalance(t, t', gone);
    SmallerReport(t, t');
  }

  lemma SplitMap(whole: map<Uuid, Row>, part: map<Uuid, Row>, rest: map<Uuid, Row>)
    requires part.Keys <= whole.Keys && rest == whole - part.Keys
    requires forall o :: o in part ==> part[o] == whole[o]
    ensures |whole| == |rest| + |part|
    ensures Sum(whole.Keys, SizeIn(whole)) == Sum(rest.Keys, SizeIn(rest)) + Sum(part.Keys, SizeIn(part))
  {
    assert rest.Keys == whole.Keys - part.Keys;
    assert |whole.Keys| == |rest.Keys| + |part.Keys|;
    SumSplit(part.Keys, whole.Keys, SizeIn(whole));
    SumAgree(part.Keys, SizeIn(whole), SizeIn(part));
    SumAgree(rest.Keys, SizeIn(whole), SizeIn(rest));
  }

  /** After a prune the store is no larger than its buckets together. */
  lemma PrunedStoreFitsBuckets(t: Tables)
    requires Consistent(t)
    ensures TotalSize(t) <= Sum(t.buckets.Keys, SpaceOf(t)) + Sum(Orphans(t), SizeIn(t.objects))
    ensures var t' := RemoveOrphans(t).tables;
            TotalSize(t') <= Sum(t'.buckets.Keys, SpaceOf(t'))
  {
    var t' := RemoveOrphans(t).tables;
    PruneExact(t);
    PruneLeavesNoOrphan(t);
    SharingBalance(t);
    SharingBalance(t');
  }

  /** Dropping a bucket loses its links and nothing else: its objects become orphans
      unless another bucket holds them. */
  lemma RemoveBucketBalance(t: Tables, id: Uuid)
    requires Consistent(t)
    ensures var t' := RemoveBucket(t, id);
            && Consistent(t')
            && t'.objects == t.objects && t'.errors == t.errors
            && t'.buckets == t.buckets - {id}
            && (forall b :: Contents(t', b) == if b == id then {} else Contents(t, b))
            && (forall o :: o in Orphans(t') <==>
                  o in t.objects && forall b :: o in Contents(t, b) ==> b == id)
  {
    var t' := RemoveBucket(t, id);
    forall b ensures Contents(t', b) == if b == id then {} else Contents(t, b) {
      forall o | b != id && o in Contents(t, b) ensures o in Contents(t', b) {
        assert Link(b, o) in t'.links;
      }
    }
    forall o | o in t.objects
      ensures o in Orphans(t') <==> forall b :: o in Contents(t, b) ==> b == id
    {
      if o in Orphans(t') {
        assert forall b :: Link(b, o) in t.links && b != id ==> Link(b, o) in LinksTo(t', o);
      } else {
        var l :| l in LinksTo(t', o);
        assert o in Contents(t, l.bucketId);
      }
    }
  }
}
