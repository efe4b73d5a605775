/**
 * The two default-storage backends (local file system and object storage)
 * and the mixin they share. A store is a map from path names to file
 * contents; `copy_within_storage` is the map update the orchestrator uses
 * to move snapshots and model output between locations.
 */
module StorageBackends {
  import opened Wrappers
  import opened Paths

  type Bytes = seq<bv8>

  /** Django's `File.DEFAULT_CHUNK_SIZE`, the size `chunks()` reads at a time. */
  const CHUNK_SIZE: nat := 64 * 1024

  /**
   * `Mixin` stands for `DefaultStorageMixin` itself, whose methods are
   * placeholders; the other two are the concrete backends.
   */
  datatype Backend =
    | Mixin
    | LocalFileSystem(mediaUrl: string)
    | ObjectStorage(bucketName: string)

  datatype StorageError = NotImplemented(operation: string) | FileNotFound(path: string)

  /** The store after a copy, and whether the copy completed. */
  datatype CopyRun = CopyRun(files: map<string, Bytes>, ok: bool)

  /**
   * What `copy_within_storage(source, destination)` does to the store: any
   * existing destination is deleted first, then the source is read and
   * written to the destination. A missing source (including a source equal
   * to the just-deleted destination) raises after the deletion.
   */
  function Copy(backend: Backend, files: map<string, Bytes>, source: string, destination: string): (r: CopyRun)
    ensures r.ok <==> !backend.Mixin? && source in files && source != destination
    ensures backend.Mixin? ==> r.files == files
    ensures r.ok ==> destination in r.files && r.files[destination] == files[source]
    ensures !backend.Mixin? && !r.ok ==> destination !in r.files
  {
    if backend.Mixin? then CopyRun(files, false)
    else
      var cleared := files - {destination};
      if source in cleared then CopyRun(cleared[destination := cleared[source]], true)
      else CopyRun(cleared, false)
  }

  /** A copy leaves every name other than its destination as it was. */
  lemma CopyKeepsOthers(backend: Backend, files: map<string, Bytes>, source: string, destination: string)
    ensures var r := Copy(backend, files, source, destination);
      && (forall p :: p in files && p != destination ==> p in r.files && r.files[p] == files[p])
      && (forall p :: p in r.files && p != destination ==> p in files)
  {
  }

  /**
   * `storage_url(path)`: the media URL prefixed to the path for the local
   * backend, an `s3://bucket/path` URI for object storage, and
   * `NotImplementedError` from the mixin.
   */
  function StorageUrl(backend: Backend, path: string): (r: Result<string, StorageError>)
    ensures r.Failure? <==> backend.Mixin?
    ensures backend.LocalFileSystem? ==> StartsWith(r.value, backend.mediaUrl) && r.value[|backend.mediaUrl|..] == path
    ensures backend.ObjectStorage? ==> StartsWith(r.value, "s3://" + backend.bucketName + "/")
  {
    match backend
    case Mixin => Failure(NotImplemented("storage_url"))
    case LocalFileSystem(mediaUrl) => Success(mediaUrl + path)
    case ObjectStorage(bucket) => Success("s3://" + bucket + "/" + path)
  }

  /** Index of the first slash, or `|s|` if there is none. */
  function FirstSlash(s: string): (k: nat)
    ensures k <= |s| && NoSlash(s[..k])
    ensures k < |s| ==> s[k] == '/'
  {
    if s == [] || s[0] == '/' then 0 else 1 + FirstSlash(s[1..])
  }

  /** Splits an `s3://bucket/key` URI into bucket and key. */
  function ParseObjectUrl(url: string): Option<(string, string)> {
    if StartsWith(url, "s3://") then
      var rest := url[5..];
      var k := FirstSlash(rest);
      if k < |rest| then Some((rest[..k], rest[k + 1..])) else None
    else None
  }

  /** An object-storage URL names its bucket and the stored path again. */
  lemma ObjectUrlRoundTrip(bucket: string, path: string)
    requires NoSlash(bucket)
    ensures ParseObjectUrl(StorageUrl(ObjectStorage(bucket), path).value) == Some((bucket, path))
  {
    var url := "s3://" + bucket + "/" + path;
    assert StorageUrl(ObjectStorage(bucket), path).value == url;
    assert url[..5] == "s3://";
    var rest := url[5..];
    assert rest == bucket + "/" + path;
    FirstSlashAfter(bucket, path);
    assert rest[..|bucket|] == bucket;
    assert rest[|bucket| + 1..] == path;
  }

  lemma {:induction false} FirstSlashAfter(bucket: string, path: string)
    requires NoSlash(bucket)
    ensures FirstSlash(bucket + "/" + path) == |bucket|
    decreases |bucket|
  {
    if bucket != [] {
      assert (bucket + "/" + path)[1..] == bucket[1..] + "/" + path;
      FirstSlashAfter(bucket[1..], path);
    }
  }

  /** A default-storage instance: its backend, its root `location` and the files it holds. */
  class Storage {
    const backend: Backend
    const location: string
    var files: map<string, Bytes>

    constructor (backend: Backend, location: string, files: map<string, Bytes>)
      ensures this.backend == backend && this.location == location && this.files == files
    {
      this.backend := backend;
      this.location := location;
      this.files := files;
    }

    predicate Exists(name: string)
      reads this
    {
      name in files
    }

    /**
     * `storage.path(name)`: the name below the storage root on the file
     * system; object storage keeps Django's default, which raises
     * `NotImplementedError`, and so does the bare mixin.
     */
    function Path(name: string): (r: Result<string, StorageError>)
      reads this
      ensures r.Success? <==> backend.LocalFileSystem?
      ensures r.Failure? ==> r.error == NotImplemented("path")
      ensures r.Success? && !StartsWith(name, "/") ==> StartsWith(r.value, location)
      ensures r.Success? && OpenDir(location) && !StartsWith(name, "/") ==> r.value == location + "/" + name
    {
      if backend.LocalFileSystem? then Success(Join(location, name)) else Failure(NotImplemented("path"))
    }

    /** `storage.delete(name)`; deleting a missing name is not an error. */
    method Delete(name: string)
      modifies this
      ensures files == old(files) - {name}
    {
      files := files - {name};
    }

    /** Stores `content` under `name`, replacing what was there. */
    method Save(name: string, content: Bytes)
      modifies this
      ensures files == old(files)[name := content]
    {
      files := files[name := content];
    }

    /**
     * `copy_within_storage(source, destination)`. The local backend streams
     * the source into a freshly opened destination chunk by chunk; object
     * storage issues a single server-side copy.
     */
    method CopyWithinStorage(source: string, destination: string) returns (r: Outcome<StorageError>)
      modifies this
      ensures var run := Copy(backend, old(files), source, destination);
        files == run.files && (r.Pass? <==> run.ok)
      ensures backend.Mixin? ==> r == Fail(NotImplemented("copy"))
    {
      if backend.Mixin? {
        return Fail(NotImplemented("copy"));
      }
      ghost var cleared := files - {destination};
      if Exists(destination) {
        Delete(destination);
      }
      assert files == cleared;
      if !Exists(source) {
        return Fail(FileNotFound(source));
      }
      var content := files[source];
      if backend.LocalFileSystem? {
        files := files[destination := []];
        var written := 0;
        while written < |content|
          invariant 0 <= written <= |content|
          invariant files == cleared[destination := content[..written]]
          decreases |content| - written
        {
          var n := if |content| - written < CHUNK_SIZE then |content| - written else CHUNK_SIZE;
          files := files[destination := files[destination] + content[written..written + n]];
          assert content[..written] + content[written..written + n] == content[..written + n];
          written := written + n;
        }
        assert content[..written] == content;
      } else {
        files := files[destination := content];
      }
      return Pass;
    }
  }
}
