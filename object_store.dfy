/** The S3 service as the batch writer sees it: a set of objects addressed by
    path, a log of the requests made to it, and an oracle deciding which of
    those requests fail with an AmazonS3Exception. */
module ObjectStore {
  import opened Wrappers
  import opened Text

  /** One request: ListObjects(BucketName, Prefix, Delimiter "/") or
      PutObject(BucketName, Key, body). */
  datatype StoreOp = List(bucket: string, prefix: string) | Put(bucket: string, key: string, body: string)

  /** The objects and the requests made so far. */
  datatype StoreState = StoreState(objects: map<string, string>, log: seq<StoreOp>)

  /** Where an object put under `key` in bucket `bucket` lives. A bucket name
      of the form "top/folder" addresses the folder inside bucket "top". */
  function PathOf(bucket: string, key: string): string {
    bucket + "/" + key
  }

  /** Whether the listing of `bucket` under `prefix` with delimiter "/" has a
      common prefix: some object path continues the prefix and holds a "/"
      after it. */
  predicate HasCommonPrefix(objects: map<string, string>, bucket: string, prefix: string) {
    exists path :: path in objects && RolledUp(path, PathOf(bucket, prefix))
  }

  predicate RolledUp(path: string, start: string) {
    StartsWith(path, start) && '/' in path[|start|..]
  }

  /** The state after a ListObjects request: logged, nothing changed. */
  function AfterList(st: StoreState, bucket: string, prefix: string): (r: StoreState)
    ensures r.objects == st.objects && r.log == st.log + [List(bucket, prefix)]
  {
    StoreState(st.objects, st.log + [List(bucket, prefix)])
  }

  /** The state after a PutObject request that fails when `fails` says so. */
  function AfterPut(st: StoreState, fails: nat -> bool, bucket: string, key: string, body: string): (r: StoreState)
    ensures r.log == st.log + [Put(bucket, key, body)]
    ensures fails(|st.log|) ==> r.objects == st.objects
    ensures !fails(|st.log|) ==> r.objects == st.objects[PathOf(bucket, key) := body]
  {
    StoreState(if fails(|st.log|) then st.objects else st.objects[PathOf(bucket, key) := body],
               st.log + [Put(bucket, key, body)])
  }

  /** The S3 client. `fails(n)` tells whether the n-th request (counted from
      0 over the client's lifetime) throws an AmazonS3Exception. */
  class S3Client {
    var objects: map<string, string>
    var log: seq<StoreOp>
    const fails: nat -> bool

    constructor (objects: map<string, string>, fails: nat -> bool)
      ensures this.objects == objects && log == [] && this.fails == fails
    {
      this.objects := objects;
      this.log := [];
      this.fails := fails;
    }

    function State(): StoreState
      reads this
    {
      StoreState(objects, log)
    }

    /** `ListObjects`: `None` when the request throws, otherwise whether the
        response's CommonPrefixes is non-empty. */
    method ListObjects(bucket: string, prefix: string) returns (r: Option<bool>)
      modifies this
      ensures State() == AfterList(old(State()), bucket, prefix)
      ensures r == if fails(|old(log)|) then None else Some(HasCommonPrefix(objects, bucket, prefix))
    {
      if fails(|log|) {
        r := None;
      } else {
        r := Some(HasCommonPrefix(objects, bucket, prefix));
      }
      log := log + [List(bucket, prefix)];
    }

    /** `PutObject`: false when the request throws, which leaves the objects as they were. */
    method PutObject(bucket: string, key: string, body: string) returns (ok: bool)
      modifies this
      ensures State() == AfterPut(old(State()), fails, bucket, key, body)
      ensures ok == !fails(|old(log)|)
    {
      ok := !fails(|log|);
      if ok {
        objects := objects[PathOf(bucket, key) := body];
      }
      log := log + [Put(bucket, key, body)];
    }
  }
}
