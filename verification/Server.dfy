/** The two upload routes and the download route, and what clients can rely on. */
module Server {
  import opened Base
  import opened Relations
  import opened RelationLaws
  import opened Accounting
  import opened Calls
  import opened Store
  import opened Filesystem
  import opened Transfer
  import O = ObjectStore

  lemma ReceivedMore(parts: map<Uuid, Bytes>, part: Uuid, data: Bytes, more: Bytes)
    ensures var r := Received(parts, part, data);
            Received(parts, part, data + more) == r[part := r[part] + more]
    ensures more == [] ==> Received(parts, part, data + more) == Received(parts, part, data)
    ensures Received(parts, part, []) == parts[part := Opened(parts, part)]
  {
    var before := Opened(parts, part);
    assert before + (data + more) == before + data + more && before + [] == before;
    assert more == [] ==> data + more == data;
  }

  /** The store once an upload's chunks are in its part. */
  ghost function WriteChunks(s: Store, part: Uuid, chunks: seq<Bytes>): Store {
    WritePart(s, part, Flatten(chunks))
  }

  // The routes

  /** The zipline route: every chunk of the stream goes into the part, which is closed
      before the commit. `generated` is the id made when the client sends none. */
  method AddObject(store: O.ObjectStore, bucket: Uuid, request: Option<Uuid>, generated: Uuid, chunks: seq<Bytes>)
    returns (result: Result<Uuid>)
    requires store.Valid()
    modifies store.database, store.filesystem
    ensures store.Valid()
    ensures var part := if request.Some? then request.value else generated;
            var uploaded := WriteChunks(old(store.State()), part, chunks);
            match CommitPart(store.probe, uploaded, bucket, part)
            case Ok(commit) => result == Ok(commit.objectId) && store.State() == commit.store
            case Err(e) => result == Err(e) && store.State() == uploaded
  {
    var part := if request.Some? then request.value else generated;
    store.filesystem.GetPart(part);
    ReceivedMore(old(store.filesystem.parts), part, [], []);
    for i := 0 to |chunks|
      invariant store.Valid() && store.database.Tables() == old(store.database.Tables())
      invariant store.filesystem.objects == old(store.filesystem.objects)
      invariant store.filesystem.parts == Received(old(store.filesystem.parts), part, Prefix(chunks, i))
    {
      ReceivedMore(old(store.filesystem.parts), part, Prefix(chunks, i), chunks[i]);
      store.filesystem.Write(part, chunks[i]);
    }
    result := store.CommitPart(bucket, part);
  }

  /** The HTTP route's loop: chunks are read until the announced length is reached. When
      `used` is all of them and `written` is short, the original goes on waiting. */
  method ReceiveBody(files: FileStore, part: Uuid, contentLength: nat, chunks: seq<Bytes>)
    returns (used: nat, written: nat)
    requires files.Valid()
    modifies files
    ensures files.Valid() && files.objects == old(files.objects)
    ensures StopsAfter(chunks, contentLength, used)
    ensures forall n :: StopsAfter(chunks, contentLength, n) ==> n == used
    ensures written == |Prefix(chunks, used)|
    ensures used > 0 ==> written < contentLength + |chunks[used - 1]|
    ensures files.parts == Received(old(files.parts), part, Prefix(chunks, used))
  {
    files.GetPart(part);
    used, written := 0, 0;
    ReceivedMore(old(files.parts), part, [], []);
    while written < contentLength && used < |chunks|
      invariant files.Valid() && files.objects == old(files.objects)
      invariant used <= |chunks| && written == |Prefix(chunks, used)|
      invariant forall m :: 0 <= m < used ==> |Prefix(chunks, m)| < contentLength
      invariant files.parts == Received(old(files.parts), part, Prefix(chunks, used))
      decreases |chunks| - used
    {
      var chunk := chunks[used];
      ReceivedMore(old(files.parts), part, Prefix(chunks, used), chunk);
      used := used + 1;
      if chunk == [] {
        continue;
      }
      files.Write(part, chunk);
      written := written + |chunk|;
    }
  }

  /** For a body of the announced length both routes leave the same part. */
  lemma RoutesAgree(parts: map<Uuid, Bytes>, part: Uuid, contentLength: nat, chunks: seq<Bytes>, used: nat)
    requires StopsAfter(chunks, contentLength, used) && |Flatten(chunks)| == contentLength
    ensures Received(parts, part, Prefix(chunks, used)) == Received(parts, part, Flatten(chunks))
  {
    ExactBodyIsTaken(chunks, contentLength, used);
  }

  // What clients can rely on

  /** What is uploaded can be downloaded: through the bucket it was committed to, under the
      id that the commit returned, new or not, with the bytes and the size of the upload. */
  lemma UploadThenDownload(probe: Probe, s: Store, bucket: Uuid, part: Uuid, chunks: seq<Bytes>)
    requires Injective(probe) && Agrees(probe, s) && Describes(probe, s)
    requires CommitPart(probe, WriteChunks(s, part, chunks), bucket, part).Ok?
    ensures var data := Opened(s.parts, part) + Flatten(chunks);
            var Commit(s', o) := CommitPart(probe, WriteChunks(s, part, chunks), bucket, part).value;
            && GetObject(s', bucket, o) == Ok(Download(Describe(probe, data), data))
            && data == (if part in s.parts then s.parts[part] + Flatten(chunks) else Flatten(chunks))
            && var row := GetObject(s', bucket, o).value.row;
               && row.hash == probe.hash(data)
               && row.size == |data|
               && row.mime.mediaType == MimeType(probe, data).mediaType
               && row.mime.subtype == MimeType(probe, data).subtype
  {
    var w := WriteChunks(s, part, chunks);
    CommitCases(probe, w, bucket, part);
    CommitDescribes(probe, w, bucket, part);
  }

  /** From upload to the caller's buffer: a committed upload of at most 2 GiB, sent back in
      any chunks, arrives in the buffer byte for byte. */
  lemma UploadThenBuffer(probe: Probe, s: Store, bucket: Uuid, part: Uuid, chunks: seq<Bytes>,
                         s': Store, o: Uuid, sent: seq<Bytes>, original: Bytes)
    requires Injective(probe) && Agrees(probe, s) && Describes(probe, s)
    requires CommitPart(probe, WriteChunks(s, part, chunks), bucket, part) == Ok(Commit(s', o))
    requires GetObject(s', bucket, o).Ok? ==> Flatten(sent) == GetObject(s', bucket, o).value.data
    requires |Opened(s.parts, part) + Flatten(chunks)| <= |original|
    requires |Opened(s.parts, part) + Flatten(chunks)| <= 0x8000_0000
    ensures GetObject(s', bucket, o).Ok?
    ensures Copied(sent, |sent|, original) == Some(Filled(Opened(s.parts, part) + Flatten(chunks), original))
  {
    UploadThenDownload(probe, s, bucket, part, chunks);
    SmallIsWithinReach(sent, |sent|);
    CopiedInPlace(sent, |sent|, original);
  }

  /** When an upload under a fresh id succeeds: exactly when its bucket exists. */
  lemma FreshUploadSucceeds(probe: Probe, s: Store, bucket: Uuid, part: Uuid, chunks: seq<Bytes>)
    requires Agrees(probe, s) && part !in s.objects
    ensures CommitPart(probe, WriteChunks(s, part, chunks), bucket, part).Ok? <==> bucket in s.tables.buckets
  {
    CommitCases(probe, WriteChunks(s, part, chunks), bucket, part);
  }

  /** A part whose contents are stored already becomes a link to the stored object. */
  lemma DuplicateIsLinked(probe: Probe, s: Store, bucket: Uuid, part: Uuid, o: Uuid)
    requires Agrees(probe, s) && bucket in s.tables.buckets && o in s.objects && part in s.parts
    requires probe.hash(s.parts[part]) == probe.hash(s.objects[o])
    ensures var r := CommitPart(probe, s, bucket, part);
            && r.Ok? && r.value.objectId == o
            && r.value.store.tables.objects == s.tables.objects
            && r.value.store.objects.Keys == s.objects.Keys
            && r.value.store.tables.links == s.tables.links + {Link(bucket, o)}
  {
    OwnerIsUnique(s.tables.objects, o);
    AddObjectCases(s.tables, bucket, part, Describe(probe, s.parts[part]));
  }

  /** The same bytes are one object, however they are cut and wherever they are put, under
      the same part id or another. */
  lemma SameBytesSameObject(probe: Probe, s: Store, bucket: Uuid, part: Uuid, chunks: seq<Bytes>,
                            s': Store, o: Uuid, bucket': Uuid, part': Uuid, chunks': seq<Bytes>)
    requires Agrees(probe, s)
    requires CommitPart(probe, WriteChunks(s, part, chunks), bucket, part) == Ok(Commit(s', o))
    requires Opened(s.parts, part) + Flatten(chunks) == Opened(s'.parts, part') + Flatten(chunks')
    requires bucket' in s.tables.buckets
    ensures var again := CommitPart(probe, WriteChunks(s', part', chunks'), bucket', part');
            && again.Ok? && again.value.objectId == o
            && again.value.store.tables.objects == s'.tables.objects
            && again.value.store.objects.Keys == s'.objects.Keys
  {
    var w := WriteChunks(s, part, chunks);
    CommitCases(probe, w, bucket, part);
    DuplicateIsLinked(probe, WriteChunks(s', part', chunks'), bucket', part', o);
  }

  /** Operations that take an object out of a bucket. */
  predicate Removes(op: Op, bucket: Uuid, o: Uuid) {
    && op.Change?
    && (op.edit == DropBucket(bucket)
        || op.edit == Detach(bucket, o)
        || (op.edit.DetachAll? && op.edit.bucket == bucket && o in op.edit.ids))
  }

  lemma StepKeepsDownload(probe: Probe, s: Store, bucket: Uuid, o: Uuid, op: Op)
    requires Injective(probe) && Agrees(probe, s) && Describes(probe, s)
    requires GetObject(s, bucket, o).Ok? && !Removes(op, bucket, o)
    ensures GetObject(Apply(probe, s, op), bucket, o) == GetObject(s, bucket, o)
  {
    match op
    case Append(_, _) =>
    case Finish(b, part) =>
      if CommitPart(probe, s, b, part).Ok? {
        CommitCases(probe, s, b, part);
      }
    case Change(edit) => EditKeeps(s.tables, edit);
    case Sweep => PruneExact(s.tables); PruneKeepsLinks(s.tables);
    case Check(_) =>
  }

  /** A removal ends the download; one in bulk fails, and ends nothing, only if the summed
      sizes are too large for the report. */
  lemma RemovalEndsDownload(probe: Probe, s: Store, bucket: Uuid, o: Uuid, op: Op)
    requires Agrees(probe, s) && FetchStoreTotals(s.tables).Ok?
    requires GetObject(s, bucket, o).Ok? && Removes(op, bucket, o)
    ensures GetObject(Apply(probe, s, op), bucket, o) == Err(NotFound)
  {
    RemovalUnlinks(s.tables, bucket, o, op);
  }

  lemma RemovalUnlinks(t: Tables, bucket: Uuid, o: Uuid, op: Op)
    requires Consistent(t) && FetchStoreTotals(t).Ok? && Link(bucket, o) in t.links && Removes(op, bucket, o)
    ensures Link(bucket, o) !in ApplyEdit(t, op.edit).links
  {
    match op.edit
    case DetachAll(_, ids) =>
      TotalBoundsEverySum(t, bucket, ids);
      assert o in Held(t, bucket, ids);
    case _ =>
  }

  /** An object stays downloadable, unchanged, through any operations, prunes included,
      until one takes it out of the bucket. */
  lemma {:induction false} DownloadsAreStable(probe: Probe, s: Store, bucket: Uuid, o: Uuid, ops: seq<Op>)
    requires Injective(probe) && Agrees(probe, s) && Describes(probe, s)
    requires GetObject(s, bucket, o).Ok?
    requires forall op :: op in ops ==> !Removes(op, bucket, o)
    ensures GetObject(ApplyAll(probe, s, ops), bucket, o) == GetObject(s, bucket, o)
    decreases |ops|
  {
    if ops != [] {
      StepKeepsDownload(probe, s, bucket, o, ops[0]);
      ApplyAgrees(probe, s, ops[0]);
      DescriptionsAreKept(probe, s, [ops[0]]);
      assert [ops[0]][1..] == [];
      assert ApplyAll(probe, s, [ops[0]]) == ApplyAll(probe, Apply(probe, s, ops[0]), []);
      DownloadsAreStable(probe, Apply(probe, s, ops[0]), bucket, o, ops[1..]);
    }
  }
}
