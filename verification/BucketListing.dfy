/** Looking buckets up by name, one at a time and many at once. */
module BucketListing {
  import opened Base
  import opened Relations
  import opened Accounting
  import opened Calls
  import opened RelationLaws
  import opened Sums
  import opened Text

  datatype BucketRow = BucketRow(id: Uuid, name: string, objectCount: nat, spaceUsed: nat)

  /** A row of the view `bucket`; computing it fails when the sum does not fit. */
  ghost function ViewRow(t: Tables, id: Uuid): Result<BucketRow>
    requires id in t.buckets
  {
    match ToBigint(SpaceUsed(t, id))
    case Ok(n) => Ok(BucketRow(id, t.buckets[id], |Contents(t, id)|, n))
    case Err(e) => Err(e)
  }

  ghost predicate Named(t: Tables, id: Uuid, name: string) {
    id in t.buckets && t.buckets[id] == name
  }

  ghost function FetchBucket(t: Tables, name: string): Result<BucketRow> {
    if id :| Named(t, id, name) then ViewRow(t, id) else Err(NotFound)
  }

  /** What a fetched row says, counted over the bucket's links: their number, and the sum of
      the sizes of what they link to. */
  lemma FetchedRow(t: Tables, name: string, row: BucketRow)
    requires FetchBucket(t, name) == Ok(row)
    ensures Named(t, row.id, name) && row.name == name
    ensures row.objectCount == |LinksOf(t, row.id)|
    ensures row.spaceUsed == Sum(LinksOf(t, row.id), LinkSize(t))
  {
    SpaceUsedByLinks(t, row.id);
  }

  /** A fetch fails exactly when no bucket bears the name, or the sum is 2^63 or more. */
  lemma FetchFails(t: Tables, name: string, id: Uuid)
    requires UniqueNames(t.buckets)
    ensures FetchBucket(t, name) == Err(NotFound) <==> forall b :: !Named(t, b, name)
    ensures Named(t, id, name) ==>
              if SpaceUsed(t, id) < 0x8000_0000_0000_0000 then
                FetchBucket(t, name).Ok? && FetchBucket(t, name).value.id == id
              else
                FetchBucket(t, name) == Err(OutOfRange)
  {
  }

  /** An add raises the fetched count of its bucket by one and the space by the object's size,
      unless the bucket held the object; the rows of other buckets stay as they are. */
  lemma AddThenFetch(t: Tables, bucket: Uuid, id: Uuid, row: Row, name: string, before: BucketRow)
    requires Consistent(t) && AddObject(t, bucket, id, row).Ok? && FetchBucket(t, name) == Ok(before)
    ensures var Added(t', o) := AddObject(t, bucket, id, row).value;
            var after := FetchBucket(t', name);
            if before.id != bucket || Link(bucket, o) in t.links then
              after == Ok(before)
            else if before.spaceUsed + t'.objects[o].size < 0x8000_0000_0000_0000 then
              after == Ok(before.(objectCount := before.objectCount + 1,
                                  spaceUsed := before.spaceUsed + t'.objects[o].size))
            else
              after == Err(OutOfRange)
  {
    AddedCounts(t, bucket, id, row, before.id);
    FetchIsView(t, name, before.id);
    FetchIsView(AddObject(t, bucket, id, row).value.tables, name, before.id);
  }

  lemma AddedCounts(t: Tables, bucket: Uuid, id: Uuid, row: Row, b: Uuid)
    requires Consistent(t) && AddObject(t, bucket, id, row).Ok?
    ensures var Added(t', o) := AddObject(t, bucket, id, row).value;
            var isNew := b == bucket && Link(bucket, o) !in t.links;
            && o in t'.objects && t'.buckets == t.buckets && UniqueNames(t'.buckets)
            && |Contents(t', b)| == |Contents(t, b)| + (if isNew then 1 else 0)
            && SpaceUsed(t', b) == SpaceUsed(t, b) + (if isNew then t'.objects[o].size else 0)
  {
    var Added(t', o) := AddObject(t, bucket, id, row).value;
    AddObjectCases(t, bucket, id, row);
    AddObjectSpace(t, bucket, id, row, b);
    HeldAsLinked(t, b, o);
    CountWith(Contents(t, b), o);
  }

  lemma HeldAsLinked(t: Tables, b: Uuid, o: Uuid)
    ensures o in Contents(t, b) <==> Link(b, o) in t.links
  {
  }

  lemma CountWith(ids: set<Uuid>, o: Uuid)
    ensures |ids + {o}| == |ids| + (if o in ids then 0 else 1)
    ensures ids + {} == ids
  {
    if o in ids {
      assert ids + {o} == ids;
    }
  }

  lemma FetchIsView(t: Tables, name: string, id: Uuid)
    requires UniqueNames(t.buckets) && Named(t, id, name)
    ensures FetchBucket(t, name) == ViewRow(t, id)
  {
  }

  /** A bulk removal lowers the fetched count and space of its bucket by exactly what it
      reports; the rows of other buckets stay as they are. */
  lemma RemoveThenFetch(t: Tables, bucket: Uuid, ids: seq<Uuid>, name: string, before: BucketRow)
    requires Consistent(t) && RemoveObjects(t, bucket, ids).Ok? && FetchBucket(t, name) == Ok(before)
    ensures var Removal(t', r) := RemoveObjects(t, bucket, ids).value;
            && FetchBucket(t', name).Ok?
            && var after := FetchBucket(t', name).value;
               if before.id != bucket then
                 after == before
               else
                 && after.id == bucket && after.name == name
                 && before.objectCount == after.objectCount + r.objectsRemoved
                 && before.spaceUsed == after.spaceUsed + r.spaceFreed
  {
    var t' := RemoveObjects(t, bucket, ids).value.tables;
    RemovedCounts(t, bucket, ids, before.id);
    FetchIsView(t, name, before.id);
    FetchIsView(t', name, before.id);
  }

  lemma RemovedCounts(t: Tables, bucket: Uuid, ids: seq<Uuid>, b: Uuid)
    requires Consistent(t) && RemoveObjects(t, bucket, ids).Ok?
    ensures var Removal(t', r) := RemoveObjects(t, bucket, ids).value;
            && t'.buckets == t.buckets && UniqueNames(t'.buckets)
            && |Contents(t, b)| == |Contents(t', b)| + (if b == bucket then r.objectsRemoved else 0)
            && SpaceUsed(t, b) == SpaceUsed(t', b) + (if b == bucket then r.spaceFreed else 0)
  {
    var t' := RemoveObjects(t, bucket, ids).value.tables;
    RemoveObjectsBalance(t, bucket, ids);
    assert b != bucket ==> Contents(t', b) == Contents(t, b);
  }

  /** A dropped bucket is not found any more, and no other lookup changes. */
  lemma DropThenFetch(t: Tables, id: Uuid, name: string)
    requires Consistent(t)
    ensures FetchBucket(RemoveBucket(t, id), name) == if Named(t, id, name) then Err(NotFound) else FetchBucket(t, name)
  {
    var t' := RemoveBucket(t, id);
    RemoveBucketBalance(t, id);
    if b :| Named(t, b, name) && b != id {
      assert Named(t', b, name) && Contents(t', b) == Contents(t, b);
    } else {
      assert forall b :: Named(t', b, name) ==> Named(t, b, name) && b != id;
    }
  }

  /** No lookup can tell that a prune happened. */
  lemma PruneThenFetch(t: Tables, name: string)
    requires Consistent(t)
    ensures FetchBucket(RemoveOrphans(t).tables, name) == FetchBucket(t, name)
  {
    var t' := RemoveOrphans(t).tables;
    PruneExact(t);
    if b :| Named(t, b, name) {
      PruneKeepsBuckets(t, b);
      assert Named(t', b, name);
    } else {
      assert forall b :: Named(t', b, name) ==> Named(t, b, name);
    }
  }

  /** Creating a bucket and fetching it by name gives an empty bucket with its id. */
  lemma CreateThenFetch(t: Tables, id: Uuid, name: string)
    requires Consistent(t)
    ensures CreateBucket(t, id, name).Ok? <==> id !in t.buckets && forall b :: !Named(t, b, name)
    ensures CreateBucket(t, id, name).Err? ==> CreateBucket(t, id, name).error == UniqueViolation
    ensures CreateBucket(t, id, name).Ok? ==>
            var t' := CreateBucket(t, id, name).value;
            && FetchBucket(t', name) == Ok(BucketRow(id, name, 0, 0))
            && forall other :: other != name ==> FetchBucket(t', other) == FetchBucket(t, other)
  {
    NobodyBears(t, name, id);
    if CreateBucket(t, id, name).Ok? {
      var t' := CreateBucket(t, id, name).value;
      assert Named(t', id, name);
      assert Contents(t', id) == {};
      forall other | other != name
        ensures FetchBucket(t', other) == FetchBucket(t, other)
      {
        SameLookup(t, t', other);
      }
    }
  }

  lemma NobodyBears(t: Tables, name: string, id: Uuid)
    ensures (exists b :: b in t.buckets && t.buckets[b] == name) <==> !forall b :: !Named(t, b, name)
    ensures (exists b :: b in t.buckets && b != id && t.buckets[b] == name)
       <==> !forall b :: Named(t, b, name) ==> b == id
  {
    if b :| b in t.buckets && t.buckets[b] == name {
      assert Named(t, b, name);
    }
    if b :| b in t.buckets && b != id && t.buckets[b] == name {
      assert Named(t, b, name);
    }
  }

  /** A lookup depends only on who bears the name and on that bucket's contents. */
  lemma SameLookup(t: Tables, t': Tables, name: string)
    requires UniqueNames(t.buckets) && UniqueNames(t'.buckets)
    requires t'.objects == t.objects && t'.links == t.links
    requires forall b :: Named(t, b, name) <==> Named(t', b, name)
    ensures FetchBucket(t', name) == FetchBucket(t, name)
  {
    if b :| Named(t, b, name) {
      assert Named(t', b, name);
      assert Contents(t', b) == Contents(t, b);
    }
  }

  /** Renaming moves the bucket, contents and all, from its old name to the new one. It
      fails exactly when another bucket bears the new name; an unknown id is ignored. */
  lemma RenameThenFetch(t: Tables, id: Uuid, name: string)
    requires Consistent(t)
    ensures RenameBucket(t, id, name).Ok? <==> id !in t.buckets || forall b :: Named(t, b, name) ==> b == id
    ensures RenameBucket(t, id, name).Err? ==> RenameBucket(t, id, name).error == UniqueViolation
    ensures id !in t.buckets ==> RenameBucket(t, id, name) == Ok(t)
    ensures RenameBucket(t, id, name).Ok? && id in t.buckets ==>
            var t' := RenameBucket(t, id, name).value;
            && FetchBucket(t', name) == (match FetchBucket(t, t.buckets[id])
                                         case Ok(row) => Ok(row.(name := name))
                                         case Err(e) => Err(e))
            && (name != t.buckets[id] ==> FetchBucket(t', t.buckets[id]) == Err(NotFound))
            && forall other :: other != name && other != t.buckets[id] ==>
                 FetchBucket(t', other) == FetchBucket(t, other)
  {
    NobodyBears(t, name, id);
    if id in t.buckets && RenameBucket(t, id, name).Ok? {
      var t' := RenameBucket(t, id, name).value;
      assert Named(t, id, t.buckets[id]) && Named(t', id, name);
      assert Contents(t', id) == Contents(t, id);
      forall other | other != name && other != t.buckets[id]
        ensures FetchBucket(t', other) == FetchBucket(t, other)
      {
        SameLookup(t, t', other);
      }
    }
  }

  // Names are trimmed when they are given, but not when they are looked up

  ghost predicate TrimmedNames(t: Tables) {
    forall b :: b in t.buckets ==> Trim(t.buckets[b]) == t.buckets[b] && t.buckets[b] != ""
  }

  /** The edits of the object store, which trims the names it passes on and refuses blanks. */
  ghost predicate GivesTrimmedName(edit: Edit) {
    (edit.NewBucket? || edit.Rename?) ==> edit.name != "" && exists given :: edit.name == Trim(given)
  }

  lemma NamesStayTrimmed(t: Tables, edit: Edit)
    requires TrimmedNames(t) && GivesTrimmedName(edit)
    ensures TrimmedNames(ApplyEdit(t, edit))
  {
    if edit.NewBucket? || edit.Rename? {
      var given :| edit.name == Trim(given);
      TrimIsIdempotent(given);
    }
  }

  /** A new bucket is found by the name it was asked for exactly when that name has no
      white space around it. */
  lemma FoundByGivenNameExactly(t: Tables, id: Uuid, given: string)
    requires Consistent(t) && TrimmedNames(t) && Trim(given) != ""
    requires CreateBucket(t, id, Trim(given)).Ok?
    ensures var t' := CreateBucket(t, id, Trim(given)).value;
            && (FetchBucket(t', given) == Ok(BucketRow(id, Trim(given), 0, 0)) <==> Trim(given) == given)
            && (FetchBucket(t', given) == Err(NotFound) <==> Trim(given) != given)
  {
    var t' := CreateBucket(t, id, Trim(given)).value;
    CreateThenFetch(t, id, Trim(given));
    TrimIsIdempotent(given);
    if Trim(given) != given {
      forall b ensures !Named(t', b, given) {
        assert Named(t', b, given) ==> Trim(given) == given;
      }
    }
  }

  /** Such a bucket: asked for as " a" it is created, and not found as " a". */
  lemma PaddedNameIsLost(id: Uuid)
    ensures Trim(" a") == "a" && CreateBucket(EmptyTables, id, Trim(" a")).Ok?
    ensures FetchBucket(CreateBucket(EmptyTables, id, Trim(" a")).value, " a") == Err(NotFound)
  {
    assert " a"[1..] == "a" && "a"[1..] == "";
    assert TrimLeft(" a") == TrimLeft("a") == "a" == TrimRight("a");
    FoundByGivenNameExactly(EmptyTables, id, " a");
  }

  // Many at once

  datatype Match = Match(ordinal: nat, id: Uuid)

  ghost predicate Matches(t: Tables, names: seq<string>, m: Match) {
    m.ordinal < |names| && Named(t, m.id, names[m.ordinal])
  }

  /** `names JOIN bucket USING (name) ORDER BY ordinality`: every matching pair once, in
      order of ordinal. Nothing here says how many buckets may bear one name. */
  ghost predicate IsJoin(t: Tables, names: seq<string>, join: seq<Match>) {
    && (forall i :: 0 <= i < |join| ==> Matches(t, names, join[i]))
    && (forall i, j :: 0 <= i < j < |join| ==> join[i].ordinal <= join[j].ordinal && join[i] != join[j])
    && (forall m :: Matches(t, names, m) ==> m in join)
  }

  /** The rows of a join, or an error if any of them cannot be computed. */
  ghost function JoinRows(t: Tables, join: seq<Match>): Result<seq<BucketRow>>
    requires forall i :: 0 <= i < |join| ==> join[i].id in t.buckets
  {
    if join == [] then
      Ok([])
    else
      Extend(JoinRows(t, join[..|join| - 1]), ViewRow(t, join[|join| - 1].id))
  }

  /** Adds the next row's outcome to those so far; a bucket not found adds nothing. */
  function Extend(rows: Result<seq<BucketRow>>, next: Result<BucketRow>): Result<seq<BucketRow>> {
    match (rows, next)
    case (Err(e), _) => Err(e)
    case (Ok(rs), Ok(r)) => Ok(rs + [r])
    case (Ok(rs), Err(NotFound)) => Ok(rs)
    case (Ok(_), Err(e)) => Err(e)
  }

  /** A result that the query of `fetch_buckets` may return. */
  ghost predicate FetchBucketsAllows(t: Tables, names: seq<string>, result: Result<seq<BucketRow>>) {
    exists join :: IsJoin(t, names, join) && result == JoinRows(t, join)
  }

  /** `fetch_bucket` on each name in turn, passing over the names that do not exist. */
  ghost function FetchEach(t: Tables, names: seq<string>): Result<seq<BucketRow>> {
    if names == [] then
      Ok([])
    else
      Extend(FetchEach(t, names[..|names| - 1]), FetchBucket(t, names[|names| - 1]))
  }

  lemma MatchesPrefix(t: Tables, names: seq<string>, m: Match)
    requires names != []
    ensures Matches(t, names[..|names| - 1], m) <==> Matches(t, names, m) && m.ordinal != |names| - 1
  {
  }

  /** The last name's match, if there is one, ends the join. */
  lemma LastMatch(t: Tables, names: seq<string>, join: seq<Match>, b: Uuid)
    requires UniqueNames(t.buckets) && names != [] && IsJoin(t, names, join)
    requires Named(t, b, names[|names| - 1])
    ensures join != [] && join[|join| - 1] == Match(|names| - 1, b)
    ensures IsJoin(t, names[..|names| - 1], join[..|join| - 1])
  {
    var n := |names| - 1;
    var m := Match(n, b);
    assert Matches(t, names, m);
    var i :| 0 <= i < |join| && join[i] == m;
    var last := join[|join| - 1];
    assert Matches(t, names, last);
    assert last == m && i == |join| - 1;
    var init := join[..i];
    forall k | 0 <= k < |init| ensures Matches(t, names[..n], init[k]) {
      assert Matches(t, names, join[k]);
    }
    forall p | Matches(t, names[..n], p) ensures p in init {
      assert Matches(t, names, p);
      assert p in join && p != join[i];
    }
  }

  /** A last name that no bucket bears leaves the join as it was. */
  lemma NoLastMatch(t: Tables, names: seq<string>, join: seq<Match>, last: string)
    requires names != [] && last == names[|names| - 1] && IsJoin(t, names, join)
    requires forall b :: !Named(t, b, last)
    ensures IsJoin(t, names[..|names| - 1], join)
  {
    forall m ensures Matches(t, names[..|names| - 1], m) <==> Matches(t, names, m) {
      MatchesPrefix(t, names, m);
    }
  }

  lemma {:induction false} JoinIsFetchEach(t: Tables, names: seq<string>, join: seq<Match>)
    requires UniqueNames(t.buckets) && IsJoin(t, names, join)
    ensures JoinRows(t, join) == FetchEach(t, names)
    decreases |names|
  {
    if names == [] {
      assert |join| == 0;
    } else {
      var last := names[|names| - 1];
      if b :| Named(t, b, last) {
        LastMatch(t, names, join, b);
        JoinIsFetchEach(t, names[..|names| - 1], join[..|join| - 1]);
      } else {
        NoLastMatch(t, names, join, last);
        JoinIsFetchEach(t, names[..|names| - 1], join);
      }
    }
  }

  lemma {:induction false} JoinExists(t: Tables, names: seq<string>) returns (join: seq<Match>)
    requires UniqueNames(t.buckets)
    ensures IsJoin(t, names, join)
    decreases |names|
  {
    if names == [] {
      join := [];
    } else {
      var n := |names| - 1;
      join := JoinExists(t, names[..n]);
      forall m ensures Matches(t, names[..n], m) <==> Matches(t, names, m) && m.ordinal != n {
        MatchesPrefix(t, names, m);
      }
      if b :| Named(t, b, names[n]) {
        var last := Match(n, b);
        assert forall m :: Matches(t, names, m) && m.ordinal == n ==> m == last;
        join := join + [last];
      }
    }
  }

  /** The one result `fetch_buckets` may return is that of fetching each name in turn:
      in order, with repeats, without the names that do not exist. */
  lemma FetchBucketsIsFetchEach(t: Tables, names: seq<string>, result: Result<seq<BucketRow>>)
    requires Consistent(t)
    ensures FetchBucketsAllows(t, names, result) <==> result == FetchEach(t, names)
  {
    var join := JoinExists(t, names);
    JoinIsFetchEach(t, names, join);
    if FetchBucketsAllows(t, names, result) {
      var j :| IsJoin(t, names, j) && result == JoinRows(t, j);
      JoinIsFetchEach(t, names, j);
    }
  }

  /** The rows of a join are its matches' rows, one for one. */
  lemma {:induction false} JoinRowsInOrder(t: Tables, join: seq<Match>)
    requires forall i :: 0 <= i < |join| ==> join[i].id in t.buckets
    ensures JoinRows(t, join).Ok? <==> forall i :: 0 <= i < |join| ==> ViewRow(t, join[i].id).Ok?
    ensures JoinRows(t, join).Err? ==> JoinRows(t, join).error == OutOfRange
    ensures JoinRows(t, join).Ok? ==>
              var rows := JoinRows(t, join).value;
              |rows| == |join| && forall i :: 0 <= i < |join| ==> ViewRow(t, join[i].id) == Ok(rows[i])
    decreases |join|
  {
    if join != [] {
      JoinRowsInOrder(t, join[..|join| - 1]);
    }
  }

  /** `at` lists, in order, exactly the positions of the names that some bucket bears. */
  ghost predicate Positions(t: Tables, names: seq<string>, at: seq<nat>) {
    && (forall i, j :: 0 <= i < j < |at| ==> at[i] < at[j])
    && (forall i :: 0 <= i < |at| ==> at[i] < |names|)
    && (forall k :: 0 <= k < |names| ==> (k in at <==> exists b :: Named(t, b, names[k])))
  }

  lemma JoinPositions(t: Tables, names: seq<string>, join: seq<Match>, at: seq<nat>)
    requires UniqueNames(t.buckets) && IsJoin(t, names, join)
    requires |at| == |join| && forall i :: 0 <= i < |at| ==> at[i] == join[i].ordinal
    ensures Positions(t, names, at)
  {
    forall i | 0 <= i < |at| ensures at[i] < |names| {
      assert Matches(t, names, join[i]);
    }
    forall i, j | 0 <= i < j < |at| ensures at[i] < at[j] {
      assert Matches(t, names, join[i]) && Matches(t, names, join[j]);
    }
    forall k | 0 <= k < |names| ensures k in at <==> exists b :: Named(t, b, names[k]) {
      if k in at {
        var i :| 0 <= i < |at| && at[i] == k;
        assert Matches(t, names, join[i]);
        assert Named(t, join[i].id, names[k]);
      }
      if b :| Named(t, b, names[k]) {
        assert Matches(t, names, Match(k, b));
        var i :| 0 <= i < |join| && join[i] == Match(k, b);
        assert at[i] == k;
      }
    }
  }

  /** The rows of `fetch_buckets` are, one for one and in the order of the names, those that
      fetching each existing name gives. */
  lemma FetchedInOrder(t: Tables, names: seq<string>, rows: seq<BucketRow>) returns (at: seq<nat>)
    requires Consistent(t) && FetchBucketsAllows(t, names, Ok(rows))
    ensures Positions(t, names, at) && |rows| == |at|
    ensures forall i :: 0 <= i < |at| ==> FetchBucket(t, names[at[i]]) == Ok(rows[i])
  {
    var join: seq<Match> :| IsJoin(t, names, join) && Ok(rows) == JoinRows(t, join);
    JoinRowsInOrder(t, join);
    at := seq(|join|, i requires 0 <= i < |join| => join[i].ordinal);
    JoinPositions(t, names, join, at);
    forall i | 0 <= i < |at| ensures FetchBucket(t, names[at[i]]) == Ok(rows[i]) {
      MatchIsFetched(t, names, join[i]);
      assert ViewRow(t, join[i].id) == Ok(rows[i]);
    }
  }

  lemma MatchIsFetched(t: Tables, names: seq<string>, m: Match)
    requires UniqueNames(t.buckets) && Matches(t, names, m)
    ensures FetchBucket(t, names[m.ordinal]) == ViewRow(t, m.id)
  {
    FetchIsView(t, names[m.ordinal], m.id);
  }

  /** When the store's total can be reported, no listing of buckets ever fails. */
  lemma {:induction false} ListingSucceeds(t: Tables, names: seq<string>)
    requires Consistent(t) && FetchStoreTotals(t).Ok?
    ensures FetchEach(t, names).Ok?
    decreases |names|
  {
    if names != [] {
      ListingSucceeds(t, names[..|names| - 1]);
      var last := names[|names| - 1];
      if b :| Named(t, b, last) {
        forall id | id in t.buckets ensures ViewRow(t, id).Ok? {
          TotalBoundsEverySum(t, id, []);
        }
      }
    }
  }
}
