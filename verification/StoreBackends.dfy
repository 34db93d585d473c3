/** The two archive backends, any of whose operations may fail, against the one write sequence of
    ArchiveStore. */
module StoreBackends {
  import opened Wrappers
  import opened ObjectKeys
  import opened Transcripts
  import opened ArchiveStore

  /** S3-compatible storage: every put replaces one object or fails and changes nothing. */
  class ObjectArchiveStore {
    var objects: Store
    /** Which puts fail, by number: an outage may come and go. */
    const outage: nat -> bool
    var attempts: nat

    /** No put fails from now on. */
    ghost predicate Up()
      reads this
    {
      forall k :: k >= attempts ==> !outage(k)
    }

    constructor (outage: nat -> bool)
      ensures objects == map[] && attempts == 0 && this.outage == outage
    {
      this.outage, objects, attempts := outage, map[], 0;
    }

    method PutBytes(key: Key, body: Object) returns (ok: bool)
      modifies this
      ensures ok == !outage(old(attempts)) && attempts == old(attempts) + 1
      ensures objects == if ok then old(objects)[key := body] else old(objects)
    {
      ok := !outage(attempts);
      attempts := attempts + 1;
      if ok {
        objects := objects[key := body];
      }
    }

    /** Whatever fails, the objects are those after the first `n` writes of the sequence, and success
        means all of it. */
    method PutSessionArchive(u: Uuid, s: Uuid, merged: seq<Line>, m: ManifestBody) returns (ok: bool, ghost n: nat)
      modifies this
      ensures
        var puts := ArchivePuts(u, s, merged, m);
        n <= |puts| && (ok <==> n == |puts|) && objects == Put(old(objects), puts, n)
      ensures ok ==> objects == (if m.transcript.Some? then old(objects)[Transcript(u, s) := Compressed(ZSTD, merged)]
                                 else old(objects))[Manifest(u, s) := ManifestJson(m)]
      ensures old(Up()) ==> ok && Up()
    {
      PassOutcomes(objects, u, s, merged, m, 0);
      PassOutcomes(objects, u, s, merged, m, 1);
      PassOutcomes(objects, u, s, merged, m, |ArchivePuts(u, s, merged, m)|);
      n := 0;
      if m.transcript.Some? {
        ok := PutBytes(Transcript(u, s), Compressed(ZSTD, merged));
        if !ok {
          return;
        }
        n := 1;
      }
      ok := PutBytes(Manifest(u, s), ManifestJson(m));
      if ok {
        n := n + 1;
      }
    }

    method PutMedia(u: Uuid, s: Uuid, media: Uuid, kind: string, data: string) returns (ok: bool, ghost n: nat)
      modifies this
      ensures n <= 2 && (ok <==> n == 2)
      ensures objects == Put(old(objects), MediaPuts(u, s, media, kind, data), n)
      ensures
        ok ==> objects == old(objects)[Media(u, s, media) := Blob(data)][Sidecar(u, s, media) := SidecarJson(kind)]
    {
      ghost var puts := MediaPuts(u, s, media, kind, data);
      assert Put(objects, puts, 1) == objects[Media(u, s, media) := Blob(data)];
      n := 0;
      ok := PutBytes(Media(u, s, media), Blob(data));
      if ok {
        n := 1;
        ok := PutBytes(Sidecar(u, s, media), SidecarJson(kind));
        if ok {
          n := 2;
        }
      }
    }
  }

  // ---------------------------------------------------------------- files

  type Disk = map<string, Object>

  /** The files at object paths are exactly the store; other files are free. */
  ghost predicate Represents(disk: Disk, store: Store) {
    forall k: Key :: (Path(k) in disk <==> k in store) && (k in store ==> disk[Path(k)] == store[k])
  }

  lemma StoredAtPath(disk: Disk, store: Store, k: Key, body: Object)
    requires Represents(disk, store)
    ensures Represents(disk[Path(k) := body], store[k := body])
  {
    forall k': Key
      ensures Path(k') in disk[Path(k) := body] <==> k' in store[k := body]
      ensures k' in store[k := body] ==> disk[Path(k) := body][Path(k')] == store[k := body][k']
    {
      PathInjective(k, k');
    }
  }

  lemma TempFilesUnseen(disk: Disk, disk': Disk, store: Store, k: Key)
    requires Represents(disk, store)
    requires forall p :: p != TempPath(Path(k)) ==> (p in disk <==> p in disk') && (p in disk ==> disk[p] == disk'[p])
    ensures Represents(disk', store)
  {
    forall k': Key
      ensures Path(k') in disk' <==> k' in store
      ensures k' in store ==> disk'[Path(k')] == store[k']
    {
      TempPathIsNoKey(k, k');
    }
  }

  /** Plain files. A write that fails may leave part of the file behind; a rename happens
      whole or not at all. */
  class LocalArchiveStore {
    var disk: Disk
    /** Which file operations fail, by number. */
    const outage: nat -> bool
    var attempts: nat

    constructor (outage: nat -> bool)
      ensures Represents(disk, map[]) && attempts == 0 && this.outage == outage
    {
      this.outage, disk, attempts := outage, map[], 0;
    }

    method WriteFile(path: string, body: Object) returns (ok: bool)
      modifies this
      ensures forall p :: p != path ==> (p in old(disk) <==> p in disk) && (p in disk ==> disk[p] == old(disk)[p])
      ensures ok ==> path in disk && disk[path] == body
    {
      ok := !outage(attempts);
      attempts := attempts + 1;
      if ok {
        disk := disk[path := body];
      } else if * {
        disk := disk[path := Partial];
      }
    }

    method Rename(from: string, to: string) returns (ok: bool)
      requires from in disk && from != to
      modifies this
      ensures disk == if ok then (old(disk) - {from})[to := old(disk)[from]] else old(disk)
    {
      ok := !outage(attempts);
      attempts := attempts + 1;
      if ok {
        disk := (disk - {from})[to := disk[from]];
      }
    }

    /** A torn write, a failed rename or a crash anywhere inside leaves the object as it was. */
    method WriteAtomic(key: Key, body: Object, ghost store: Store) returns (ok: bool)
      requires Represents(disk, store)
      modifies this
      ensures Represents(disk, if ok then store[key := body] else store)
    {
      var path := Path(key);
      var temp := TempPath(path);
      TempPathIsNoKey(key, key);
      ok := WriteFile(temp, body);
      TempFilesUnseen(old(disk), disk, store, key);
      if ok {
        ghost var written := disk;
        ok := Rename(temp, path);
        if ok {
          TempFilesUnseen(written, written - {temp}, store, key);
          StoredAtPath(written - {temp}, store, key, body);
        }
      }
    }

    /** The local backend refines the object store: it stops after some prefix of the same
        write sequence, and success means the whole of it. */
    method PutSessionArchive(u: Uuid, s: Uuid, merged: seq<Line>, m: ManifestBody, ghost store: Store)
      returns (ok: bool, ghost n: nat)
      requires Represents(disk, store)
      modifies this
      ensures n <= |ArchivePuts(u, s, merged, m)| && (ok <==> n == |ArchivePuts(u, s, merged, m)|)
      ensures Represents(disk, Put(store, ArchivePuts(u, s, merged, m), n))
    {
      n := 0;
      ghost var puts := ArchivePuts(u, s, merged, m);
      PassOutcomes(store, u, s, merged, m, 0);
      PassOutcomes(store, u, s, merged, m, 1);
      PassOutcomes(store, u, s, merged, m, |puts|);
      if m.transcript.Some? {
        ok := WriteAtomic(Transcript(u, s), Compressed(ZSTD, merged), store);
        if !ok { return; }
        n := 1;
      }
      ok := WriteAtomic(Manifest(u, s), ManifestJson(m), Put(store, puts, n));
      if ok { n := |puts|; }
    }
  }
}
