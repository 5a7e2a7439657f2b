/** The file tree: one name space of paths, seen by the store as two maps from ids. */
module Filesystem {
  import opened Base

  /** A path below the home directory, built like the `/` operator builds it. */
  datatype Path = Home | In(parent: Path, name: string)

  function Substr(s: string, pos: nat, n: nat): string {
    if pos > |s| then "" else if pos + n > |s| then s[pos..] else s[pos..pos + n]
  }

  function ObjectPath(id: string): Path {
    In(In(In(In(Home, "objects"), Substr(id, 0, 2)), Substr(id, 2, 2)), id)
  }

  function PartPath(id: string): Path {
    In(In(Home, "parts"), id)
  }

  /** Two ids never share a file, and an object's file is never a part's. */
  lemma PathsNeverClash(a: string, b: string)
    ensures ObjectPath(a) == ObjectPath(b) ==> a == b
    ensures PartPath(a) == PartPath(b) ==> a == b
    ensures ObjectPath(a) != PartPath(b)
  {
  }

  /** The directory and file names along a path. */
  function Names(path: Path): seq<string> {
    match path
    case Home => []
    case In(parent, name) => Names(parent) + [name]
  }

  /** Objects are spread over two levels of directories by the first digits of their ids. */
  lemma PathsSpelled(id: string)
    requires |id| >= 4
    ensures Names(ObjectPath(id)) == ["objects", id[..2], id[2..4], id]
    ensures Names(PartPath(id)) == ["parts", id]
  {
    assert Substr(id, 0, 2) == id[..2] && Substr(id, 2, 2) == id[2..4];
    var top := In(Home, "objects");
    assert Names(top) == ["objects"];
    assert Names(In(top, id[..2])) == ["objects", id[..2]];
    assert Names(In(In(top, id[..2]), id[2..4])) == ["objects", id[..2], id[2..4]];
    assert Names(In(Home, "parts")) == ["parts"];
  }

  /** Where a character first occurs; the length when it does not. */
  function Find(s: string, c: char): nat {
    if s == [] || s[0] == c then 0 else 1 + Find(s[1..], c)
  }

  lemma {:induction false} FindFirst(a: string, c: char, b: string)
    requires c !in a
    ensures Find(a, c) == |a| && Find(a + [c] + b, c) == |a|
    decreases |a|
  {
    if a != [] {
      assert (a + [c] + b)[1..] == a[1..] + [c] + b;
      FindFirst(a[1..], c, b);
    }
  }

  /** `mime_type`: what is before the first slash, and what is behind it. The position of no
      slash wraps to 0 when 1 is added, so a text without slash counts twice. */
  function MimeType(probe: Probe, data: Bytes): Mime {
    var text := probe.magic(data);
    var i := Find(text, '/');
    if i < |text| then Mime(text[..i], text[i + 1..]) else Mime(text, text)
  }

  lemma MimeSplits(probe: Probe, data: Bytes, mediaType: string, subtype: string)
    requires '/' !in mediaType
    ensures probe.magic(data) == mediaType + "/" + subtype ==> MimeType(probe, data) == Mime(mediaType, subtype)
    ensures probe.magic(data) == mediaType ==> MimeType(probe, data) == Mime(mediaType, mediaType)
  {
    FindFirst(mediaType, '/', subtype);
    var text := mediaType + ['/'] + subtype;
    assert text[..|mediaType|] == mediaType && text[|mediaType| + 1..] == subtype;
  }

  /** The view's entry for an id is the file at the id's object path. */
  ghost predicate ViewsObject(files: map<Path, Bytes>, objects: map<Uuid, Bytes>, id: Uuid) {
    && (id in objects <==> ObjectPath(id.text) in files)
    && (id in objects ==> objects[id] == files[ObjectPath(id.text)])
  }

  /** The view's entry for an id is the file at the id's part path. */
  ghost predicate ViewsPart(files: map<Path, Bytes>, parts: map<Uuid, Bytes>, id: Uuid) {
    && (id in parts <==> PartPath(id.text) in files)
    && (id in parts ==> parts[id] == files[PartPath(id.text)])
  }

  /** Two maps from ids stand for the file tree, whatever else the tree holds. */
  ghost predicate Views(files: map<Path, Bytes>, objects: map<Uuid, Bytes>, parts: map<Uuid, Bytes>) {
    forall id :: ViewsObject(files, objects, id) && ViewsPart(files, parts, id)
  }

  /** A change at one object's path shows in that entry of the views and nowhere else. */
  lemma ObjectViewStep(f: map<Path, Bytes>, f': map<Path, Bytes>, objects: map<Uuid, Bytes>,
                       objects': map<Uuid, Bytes>, parts: map<Uuid, Bytes>, id: Uuid)
    requires Views(f, objects, parts)
    requires forall p :: p != ObjectPath(id.text) ==> (p in f' <==> p in f) && (p in f ==> f'[p] == f[p])
    requires forall o :: o != id ==> (o in objects' <==> o in objects) && (o in objects ==> objects'[o] == objects[o])
    requires ViewsObject(f', objects', id)
    ensures Views(f', objects', parts)
  {
    forall o
      ensures ViewsObject(f', objects', o) && ViewsPart(f', parts, o)
    {
      assert ViewsObject(f, objects, o) && ViewsPart(f, parts, o);
      PathsNeverClash(o.text, id.text);
      PathsNeverClash(id.text, o.text);
    }
  }

  /** A change at one part's path shows in that entry of the views and nowhere else. */
  lemma PartViewStep(f: map<Path, Bytes>, f': map<Path, Bytes>, objects: map<Uuid, Bytes>,
                     parts: map<Uuid, Bytes>, parts': map<Uuid, Bytes>, id: Uuid)
    requires Views(f, objects, parts)
    requires forall p :: p != PartPath(id.text) ==> (p in f' <==> p in f) && (p in f ==> f'[p] == f[p])
    requires forall o :: o != id ==> (o in parts' <==> o in parts) && (o in parts ==> parts'[o] == parts[o])
    requires ViewsPart(f', parts', id)
    ensures Views(f', objects, parts')
  {
    forall o
      ensures ViewsObject(f', objects, o) && ViewsPart(f', parts', o)
    {
      assert ViewsObject(f, objects, o) && ViewsPart(f, parts, o);
      PathsNeverClash(o.text, id.text);
    }
  }

  /** The contents of a part once it has been opened for appending. */
  function Opened(parts: map<Uuid, Bytes>, id: Uuid): Bytes {
    if id in parts then parts[id] else []
  }

  /** The parts once some bytes have been appended to one of them. */
  function Received(parts: map<Uuid, Bytes>, part: Uuid, data: Bytes): map<Uuid, Bytes> {
    parts[part := Opened(parts, part) + data]
  }

  class FileStore {
    var files: map<Path, Bytes>
    ghost var objects: map<Uuid, Bytes>
    ghost var parts: map<Uuid, Bytes>

    ghost predicate Valid()
      reads this
    {
      Views(files, objects, parts)
    }

    constructor ()
      ensures Valid() && objects == map[] && parts == map[]
    {
      files, objects, parts := map[], map[], map[];
    }

    /** Opens a part for appending, creating it when it does not exist. */
    method GetPart(id: Uuid)
      requires Valid()
      modifies this
      ensures Valid() && objects == old(objects)
      ensures parts == old(parts)[id := Opened(old(parts), id)]
      ensures if id in old(parts) then parts == old(parts) else parts == old(parts)[id := []]
    {
      assert ViewsPart(files, parts, id);
      if PartPath(id.text) !in files {
        files, parts := files[PartPath(id.text) := []], parts[id := []];
        PartViewStep(old(files), files, objects, old(parts), parts, id);
      }
    }

    /** Writes through a stream that `GetPart` opened. */
    method Write(id: Uuid, data: Bytes)
      requires Valid() && id in parts
      modifies this
      ensures Valid() && objects == old(objects)
      ensures parts == old(parts)[id := old(parts)[id] + data]
    {
      var path := PartPath(id.text);
      assert ViewsPart(files, parts, id);
      files, parts := files[path := files[path] + data], parts[id := parts[id] + data];
      PartViewStep(old(files), files, objects, old(parts), parts, id);
    }

    method ReadPart(id: Uuid) returns (data: Option<Bytes>)
      requires Valid()
      ensures data == if id in parts then Some(parts[id]) else None
    {
      assert ViewsPart(files, parts, id);
      var path := PartPath(id.text);
      data := if path in files then Some(files[path]) else None;
    }

    method ReadObject(id: Uuid) returns (data: Option<Bytes>)
      requires Valid()
      ensures data == if id in objects then Some(objects[id]) else None
    {
      assert ViewsObject(files, objects, id);
      var path := ObjectPath(id.text);
      data := if path in files then Some(files[path]) else None;
    }

    /** Renames a part to the object of the same id, replacing a file already there. */
    method MakeObject(id: Uuid) returns (result: Result<()>)
      requires Valid()
      modifies this
      ensures Valid()
      ensures if id in old(parts) then
                result == Ok(()) && objects == old(objects)[id := old(parts)[id]] && parts == old(parts) - {id}
              else
                result == Err(PartMissing) && objects == old(objects) && parts == old(parts)
    {
      var part := PartPath(id.text);
      assert ViewsPart(files, parts, id);
      if part !in files {
        return Err(PartMissing);
      }
      files, objects := files[ObjectPath(id.text) := files[part]], objects[id := parts[id]];
      ObjectViewStep(old(files), files, old(objects), objects, parts, id);
      RemovePart(id);
      return Ok(());
    }

    /** Deletes an object's file; a missing file is no error. */
    method Remove(id: Uuid)
      requires Valid()
      modifies this
      ensures Valid() && objects == old(objects) - {id} && parts == old(parts)
    {
      files, objects := files - {ObjectPath(id.text)}, objects - {id};
      ObjectViewStep(old(files), files, old(objects), objects, parts, id);
    }

    /** Deletes a part; a missing file is only logged. */
    method RemovePart(id: Uuid)
      requires Valid()
      modifies this
      ensures Valid() && objects == old(objects) && parts == old(parts) - {id}
    {
      files, parts := files - {PartPath(id.text)}, parts - {id};
      PartViewStep(old(files), files, objects, old(parts), parts, id);
    }
  }
}
