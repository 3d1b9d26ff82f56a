/** The in-memory object store: keys to contents. */
module Objects {
  import opened Wrappers
  import opened Strings

  type Bytes = seq<bv8>

  datatype Object = Object(content: Bytes, contentType: string, etag: string, updatedAt: int)

  datatype ObjectInfo = ObjectInfo(key: string, size: int, contentType: string, etag: string)

  datatype ObjectError = ObjectNotFound | KeyRequired | PrefixRequired | SizeMismatch(expected: int, actual: int) | Refused

  type Bucket = map<string, Object>

  /** An object may stand for a page when it carries the page's hash, or no ETag at all. */
  predicate Matches(found: Object, hash: string) {
    found.etag == "" || found.etag == hash
  }

  /** The bucket without the objects below a prefix. */
  function WithoutPrefix(bucket: Bucket, prefix: string): Bucket {
    map k | k in bucket && !HasPrefix(k, prefix) :: bucket[k]
  }

  class MemoryObjectStore {
    const name: string
    /** The hash that names an object stored without an ETag. */
    const digest: Bytes -> string
    /** Prefixes whose deletion the backend refuses. */
    const denied: set<string>
    var objects: Bucket

    constructor (name: string, digest: Bytes -> string, denied: set<string>)
      ensures this.name == name && this.digest == digest && this.denied == denied && objects == map[]
    {
      this.name := name;
      this.digest := digest;
      this.denied := denied;
      objects := map[];
    }

    method DeleteObject(key: string) returns (r: Outcome<(), ObjectError>)
      modifies this`objects
      ensures r.Ok? <==> key in old(objects)
      ensures objects == old(objects) - {key}
    {
      if key !in objects {
        return Err(ObjectNotFound);
      }
      objects := objects - {key};
      return Ok(());
    }

    method DeletePrefix(prefix: string) returns (r: Outcome<(), ObjectError>)
      modifies this`objects
      ensures r.Ok? <==> prefix != "" && prefix !in denied
      ensures r.Err? ==> r.error == if prefix == "" then PrefixRequired else Refused
      ensures objects == if r.Ok? then WithoutPrefix(old(objects), prefix) else old(objects)
    {
      if prefix == "" {
        return Err(PrefixRequired);
      }
      if prefix in denied {
        return Err(Refused);
      }
      var todo := objects.Keys;
      while todo != {}
        invariant todo <= objects.Keys <= old(objects.Keys)
        invariant forall k :: k in objects ==> objects[k] == old(objects)[k]
        invariant forall k :: k in old(objects) ==>
                    (k in objects <==> k in todo || !HasPrefix(k, prefix))
        decreases |todo|
      {
        var key :| key in todo;
        todo := todo - {key};
        if HasPrefix(key, prefix) {
          objects := objects - {key};
        }
      }
      assert objects == WithoutPrefix(old(objects), prefix);
      return Ok(());
    }

    method PutObject(info: ObjectInfo, body: Bytes, now: int) returns (r: Outcome<ObjectInfo, ObjectError>)
      modifies this`objects
      ensures r.Ok? <==> info.key != "" && (info.size >= 0 ==> |body| == info.size)
      ensures r.Ok? ==>
                && objects == old(objects)[info.key := Object(body, info.contentType, r.value.etag, now)]
                && r.value == ObjectInfo(info.key, |body|, info.contentType, r.value.etag)
                && r.value.etag == if info.etag == "" then digest(body) else info.etag
      ensures r.Err? ==> objects == old(objects)
    {
      if info.key == "" {
        return Err(KeyRequired);
      }
      if info.size >= 0 && |body| != info.size {
        return Err(SizeMismatch(info.size, |body|));
      }
      var etag := info.etag;
      if etag == "" {
        etag := digest(body);
      }
      objects := objects[info.key := Object(body, info.contentType, etag, now)];
      return Ok(ObjectInfo(info.key, |body|, info.contentType, etag));
    }

    method HeadObject(key: string) returns (r: Outcome<ObjectInfo, ObjectError>)
      ensures r == if key in objects
                   then Ok(ObjectInfo(key, |objects[key].content|, objects[key].contentType, objects[key].etag))
                   else Err(ObjectNotFound)
    {
      if key !in objects {
        return Err(ObjectNotFound);
      }
      var found := objects[key];
      return Ok(ObjectInfo(key, |found.content|, found.contentType, found.etag));
    }
  }
}
