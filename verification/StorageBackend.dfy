/** The S3 backend's disk cache: one file and one ETag sidecar per key. S3's
    answers (HEAD, GET, PUT) are parameters; None is a request that failed. */
module StorageBackend {
  import opened Options

  type Key = string
  type Bytes = seq<bv8>
  type Etag = string

  /** What one key has on disk. */
  datatype Disk = Disk(local: Option<Bytes>, sidecar: Option<Etag>)

  /** Valid: both files exist and S3 either agrees or cannot be reached. */
  predicate CacheValid(d: Disk, head: Option<Etag>) {
    d.local.Some? && d.sidecar.Some? && (head.Some? ==> d.sidecar == head)
  }

  function Downloaded(d: Disk, tag: Option<Etag>, get: Option<Bytes>): Disk {
    if get.None? then d
    else Disk(get, if tag.Some? && tag.value != "" then tag else d.sidecar)
  }

  function Warmed(d: Disk, check: Option<Etag>, tag: Option<Etag>, get: Option<Bytes>): Disk {
    if CacheValid(d, check) then d else Downloaded(d, tag, get)
  }

  function Saved(d: Disk, data: Bytes, put: bool, head: Option<Etag>): Disk {
    Disk(Some(data), if put && head.Some? && head.value != "" then head else d.sidecar)
  }

  /** A completed save leaves a cache that is valid for exactly the ETag S3 answered;
      any other leaves the old sidecar beside the new bytes. */
  lemma SaveMeans(d: Disk, data: Bytes, put: bool, head: Option<Etag>, later: Etag)
    ensures var s := Saved(d, data, put, head);
      s.local == Some(data) &&
      if put && head.Some? && head.value != "" then CacheValid(s, Some(later)) <==> later == head.value
      else s.sidecar == d.sidecar
  {}

  class S3StorageBackend {
    var files: map<Key, Bytes>
    var sidecars: map<Key, Etag>

    constructor ()
      ensures files == map[] && sidecars == map[]
    {
      files, sidecars := map[], map[];
    }

    function On(key: Key): Disk
      reads this
    {
      Disk(if key in files then Some(files[key]) else None,
           if key in sidecars then Some(sidecars[key]) else None)
    }

    method IsCacheValid(key: Key, head: Option<Etag>) returns (valid: bool)
      ensures valid <==> CacheValid(On(key), head)
    {
      if key !in files {
        return false;
      }
      if key !in sidecars {
        return false;
      }
      if head.None? {
        return true;
      }
      return sidecars[key] == head.value;
    }

    method DownloadToCache(key: Key, tag: Option<Etag>, get: Option<Bytes>) returns (ok: bool)
      modifies this
      ensures On(key) == Downloaded(old(On(key)), tag, get) && (ok <==> get.Some?)
      ensures forall k :: k != key ==> On(k) == old(On(k))
    {
      if get.None? {
        return false;
      }
      files := files[key := get.value];
      if tag.Some? && tag.value != "" {
        sidecars := sidecars[key := tag.value];
      }
      return true;
    }

    /** ok is false when the download raised. The caller finds a file on disk
        whenever it is true. */
    method WarmCache(key: Key, check: Option<Etag>, tag: Option<Etag>, get: Option<Bytes>) returns (ok: bool)
      modifies this
      ensures On(key) == Warmed(old(On(key)), check, tag, get)
      ensures ok <==> CacheValid(old(On(key)), check) || get.Some?
      ensures ok ==> On(key).local.Some?
      ensures forall k :: k != key ==> On(k) == old(On(k))
    {
      var valid := IsCacheValid(key, check);
      if valid {
        return true;
      }
      ok := DownloadToCache(key, tag, get);
    }

    method LoadModelBytes(key: Key, check: Option<Etag>, tag: Option<Etag>, get: Option<Bytes>)
        returns (data: Option<Bytes>)
      modifies this
      ensures On(key) == Warmed(old(On(key)), check, tag, get)
      ensures data == if CacheValid(old(On(key)), check) then old(On(key)).local else get
      ensures forall k :: k != key ==> On(k) == old(On(k))
    {
      var ok := WarmCache(key, check, tag, get);
      if !ok {
        return None;
      }
      return Some(files[key]);
    }

    /** put is false when the upload raised: the new local file stays behind. */
    method SaveModelBytes(key: Key, data: Bytes, put: bool, head: Option<Etag>)
      modifies this
      ensures On(key) == Saved(old(On(key)), data, put, head)
      ensures On(key).local == Some(data)
      ensures put && head.Some? && head.value != "" ==> CacheValid(On(key), head)
      ensures !put || head.None? || head.value == "" ==> On(key).sidecar == old(On(key)).sidecar
      ensures forall k :: k != key ==> On(k) == old(On(k))
    {
      files := files[key := data];
      if !put {
        return;
      }
      if head.Some? && head.value != "" {
        sidecars := sidecars[key := head.value];
      }
    }

    method EvictCache(key: Key)
      modifies this
      ensures On(key) == Disk(None, None)
      ensures forall k :: k != key ==> On(k) == old(On(k))
    {
      files := files - {key};
      sidecars := sidecars - {key};
    }
  }
}
