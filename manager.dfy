/** The two classes of the repository: JupyterGoogleStorageContentManager (here Manager),
    which owns the bucket cache and sees the storage service's state, and
    GoogleStorageCheckpoints (here Checkpoints), which stores checkpoints through it. */
module Manager {
  import opened Results
  import opened Paths
  import opened ObjectStore
  import opened CheckpointNaming
  import opened Models

  /** A gcloud Bucket object: only its name matters. */
  datatype BucketHandle = BucketHandle(name: string)

  /** The service's answer to client.get_bucket(name). */
  datatype Lookup = Found | Missing | Invalid | Denied

  function LookupBucket(store: Store, forbidden: set<string>, name: string): Lookup {
    if name in store then (if name in forbidden then Denied else Found)
    else if ValidBucketName(name) then Missing
    else Invalid
  }

  /** What `get` is given: a path string or a Blob object. */
  datatype Target = PathArg(path: string) | BlobArg(blob: BlobRef)

  /** The second half of _fetch's answer: None, a (files, folders) listing, or a Blob. */
  datatype Payload =
    | NoPayload
    | Members(files: set<BlobRef>, folders: set<string>)
    | BlobHit(ref: BlobRef, blob: Blob)

  datatype Fetched = Fetched(found: bool, payload: Payload)

  /** A model handed to `save`: its type, its content and its format, each possibly absent.
      Notebook content is the document's JSON text. */
  datatype SaveModel = SaveModel(kind: Option<string>, content: Option<string>, format: Option<string>)

  /** A key _fetch treats as a directory: empty or ending in "/". */
  predicate IsDirKey(key: string) {
    key == "" || EndsWith(key, "/")
  }

  /** A directory key exists when it is empty, its marker blob exists, or listing it finds
      any object or sub-prefix. */
  predicate DirPresent(bucket: Bucket, key: string) {
    key == "" || key in bucket || DirectObjects(bucket, key) != {} || SubPrefixes(bucket, key) != {}
  }

  /** A directory marker "<key>/" makes the directory key present: it is a sub-prefix of
      the key's listing. */
  lemma MarkerMakesPresent(bucket: Bucket, key: string)
    requires key + "/" in bucket
    ensures DirPresent(bucket, key)
  {
    var m := key + "/";
    assert StartsWith(m, key) && m[|key|..] == "/";
    assert SubPrefix(m, key) in SubPrefixes(bucket, key);
  }

  function RefsOf(bucket: string, keys: set<string>): set<BlobRef> {
    set k | k in keys :: BlobRef(bucket, k)
  }

  /** `get` treats a path as a directory when it has no "/", ends in "/", or the type asked
      for is "directory". */
  predicate IsDirectoryRequest(path: string, kind: Option<string>) {
    '/' !in path || EndsWith(path, "/") || kind == Some("directory")
  }

  /** The directory path `get` fetches: "/" appended when the path has one but does not end
      in one. */
  function DirectoryPath(path: string): string {
    if '/' in path && !EndsWith(path, "/") then path + "/" else path
  }

  predicate IsNotebookRequest(path: string, kind: Option<string>) {
    kind == Some("notebook") || (kind == None && EndsWith(path, ".ipynb"))
  }

  function TargetPath(t: Target): string {
    match t
    case PathArg(p) => StripLeadingSlash(p)
    case BlobArg(ref) => BlobPathOf(ref)
  }

  /** The path of the model `get` returns for a target. */
  function RequestPath(t: Target, kind: Option<string>): string {
    var p := TargetPath(t);
    if IsDirectoryRequest(p, kind) then DirectoryPath(p) else p
  }

  /** _dir_model's template for a folder: "<bucket>/<folder>/" below a bucket, the bare name
      at the root (where the folders are bucket names). */
  function FolderPath(dirPath: string, folder: string): string {
    if dirPath != "" then ParsePath(dirPath).0 + "/" + folder + "/" else folder
  }

  function EntryPaths(entries: seq<ContentModel>): set<string> {
    set i | 0 <= i < |entries| :: entries[i].path
  }

  /** An error raised inside save's dispatch: HTTP errors pass, anything else becomes a 500
      naming the path. */
  function WrapSaveError(e: Failure, path: string): (r: Failure)
    ensures r.Http?
    ensures e.Http? ==> r == e
    ensures !e.Http? ==> r == Http(500, path)
  {
    if e.Http? then e else Http(500, path)
  }

  /** The error _get_bucket(name, throw=True) raises for a bucket it cannot hand back. */
  function ThrownLookupError(l: Lookup): Failure {
    match l
    case Denied => Forbidden
    case Invalid => BadRequest
    case _ => NotFound
  }

  /** Keys removed from a bucket all start with the given key, and what is left is as it was. */
  ghost predicate DeletedUnder(before: Bucket, after: Bucket, key: string) {
    && after.Keys <= before.Keys
    && (forall k :: k in after ==> after[k] == before[k])
    && (forall k :: k in before && k !in after ==> StartsWith(k, key))
  }

  /** Between two states, the cache gained only names of stored buckets and lost only names
      of buckets that are gone. */
  ghost predicate CacheStep(before: map<string, BucketHandle>, after: map<string, BucketHandle>,
                            storeBefore: Store, storeAfter: Store) {
    && after.Keys - before.Keys <= storeBefore.Keys
    && (before.Keys - after.Keys) !! storeAfter.Keys
  }

  /** Cache steps compose while the store only loses buckets. */
  lemma CacheStepTrans(c0: map<string, BucketHandle>, c1: map<string, BucketHandle>,
                       c2: map<string, BucketHandle>, s0: Store, s1: Store, s2: Store)
    requires s2.Keys <= s1.Keys <= s0.Keys
    requires CacheStep(c0, c1, s0, s1) && CacheStep(c1, c2, s1, s2)
    ensures CacheStep(c0, c2, s0, s2)
  {
  }

  /** Across a step that only adds buckets, the cache gained only names stored after it and
      lost only names not stored before it. */
  lemma CacheStepGrow(c0: map<string, BucketHandle>, c1: map<string, BucketHandle>,
                      c2: map<string, BucketHandle>, s0: Store, s1: Store)
    requires s0.Keys <= s1.Keys
    requires CacheStep(c0, c1, s0, s0) && CacheStep(c1, c2, s1, s1)
    ensures CacheStep(c0, c2, s1, s0)
  {
  }

  /** Deletions under a key compose with deletions under a longer key that extends it. */
  lemma DeletedUnderTrans(b0: Bucket, b1: Bucket, b2: Bucket, key: string, longer: string)
    requires StartsWith(longer, key)
    requires DeletedUnder(b0, b1, key) && DeletedUnder(b1, b2, longer)
    ensures DeletedUnder(b0, b2, key)
  {
    forall k | k in b0 && k !in b2
      ensures StartsWith(k, key)
    {
      if k in b1 {
        assert k[..|key|] == longer[..|key|];
      }
    }
  }

  /** The bucket without every blob whose key starts with the prefix. */
  function Pruned(bucket: Bucket, prefix: string): Bucket {
    map key | key in bucket && !StartsWith(key, prefix) :: bucket[key]
  }

  /** Pruning only removes keys under the prefix, and removes all of them. */
  lemma PrunedShape(bucket: Bucket, prefix: string)
    ensures DeletedUnder(bucket, Pruned(bucket, prefix), prefix)
    ensures NothingUnder(Pruned(bucket, prefix), prefix)
  {
  }

  /** A deletion under a prefix that leaves nothing under it is the pruned bucket. */
  lemma PrunedExactly(before: Bucket, after: Bucket, prefix: string)
    requires DeletedUnder(before, after, prefix) && NothingUnder(after, prefix)
    ensures after == Pruned(before, prefix)
  {
  }

  /** Removing one key commutes with pruning. */
  lemma PrunedWithout(bucket: Bucket, prefix: string, key: string)
    ensures Pruned(bucket - {key}, prefix) == Pruned(bucket, prefix) - {key}
  {
  }

  /** A store that differs from another at most in one stored bucket is that store with the
      bucket updated. */
  lemma OnlyOneBucket(before: Store, after: Store, b: string)
    requires b in before && b in after && after - {b} == before - {b}
    ensures after == before[b := after[b]]
  {
    forall n | n in after ensures n in before[b := after[b]] && after[n] == before[b := after[b]][n] {
      if n != b {
        assert n in after - {b};
      }
    }
    forall n | n in before ensures n in after {
      if n != b {
        assert n in before - {b};
      }
    }
  }

  /** A store of one bucket, changed only in that bucket, is that bucket's new value. */
  lemma OneBucketLeft(before: Store, after: Store, b: string, v: Bucket)
    requires before.Keys == {b} && b in after && after - {b} == before - {b} && after[b] == v
    ensures after == map[b := v]
  {
    assert (before - {b}).Keys == {};
    assert after.Keys - {b} == (after - {b}).Keys;
    assert after.Keys == {b};
  }

  lemma UpdateElsewhere(before: Store, after: Store, b: string, v: Bucket)
    requires after == before[b := v]
    ensures after - {b} == before - {b}
  {
  }

  /** list_checkpoints' list of entries for the listed blobs, sorted newest first. */
  method CheckpointEntries(b: string, bucket: Bucket, keys: set<string>) returns (r: seq<CheckpointEntry>)
    requires keys <= bucket.Keys
    ensures NewestFirst(r)
    ensures EntriesOf(r, b, bucket, keys)
  {
    var entries: seq<CheckpointEntry> := [];
    var todo := keys;
    while todo != {}
      invariant todo <= keys
      invariant EntriesOf(entries, b, bucket, keys - todo)
      decreases todo
    {
      var key :| key in todo;
      EntriesOfStep(entries, b, bucket, keys, todo, key);
      entries := entries + [EntryOf(BlobRef(b, key), bucket[key])];
      todo := todo - {key};
    }
    r := SortNewestFirst(entries);
    EntriesOfPermuted(entries, r, b, bucket, keys);
  }

  /** The error save refuses a model with before writing anything, if any. */
  function SaveRefusal(model: SaveModel, path: string): Option<Failure> {
    if model.kind.None? then Some(Http(400, ""))
    else if model.content.None? && model.kind != Some("directory") then Some(Http(400, ""))
    else if ParsePath(StripLeadingSlash(path)).1 == "" && model.kind != Some("directory") then Some(Http(403, ""))
    else None
  }

  /** The path save works on: no leading "/", and "/" appended for a directory below a
      bucket root. */
  function SavePath(kind: Option<string>, path: string): string {
    var p := StripLeadingSlash(path);
    if ParsePath(p).1 != "" && kind == Some("directory") then p + "/" else p
  }

  /** What a file save leaves in the store: when the bucket could be had and is stored
      and the content encodes, the encoded content at the key, with the upload's default
      content type and the time of the upload; the same store otherwise. */
  ghost predicate FileSaveOutcome(before: Store, after: Store, b: string, k: string, bytes: Result<seq<Byte>>,
                                  stamp: int, handle: bool) {
    if handle && b in before && bytes.Ok? then
      after == before[b := before[b][k := Blob(bytes.value, Some(UploadDefaultMime), stamp)]]
    else after == before
  }

  /** What a successful notebook save leaves in the store: the notebook's bytes at its key
      with the notebook content type, and possibly one more blob, its first checkpoint. */
  ghost predicate NotebookSaveOutcome(before: Store, after: Store, b: string, k: string, bytes: seq<Byte>,
                                      stamp: int, cb: string, ck: string) {
    b in before &&
    var written := before[b := before[b][k := Blob(bytes, Some(NotebookMime), stamp)]];
    after == written || OnlyBlobWritten(written, after, cb, ck)
  }

  /** The key save works on is a directory key for a directory. */
  lemma SavePathKey(kind: Option<string>, path: string)
    requires kind == Some("directory")
    ensures IsDirKey(ParsePath(SavePath(kind, path)).1)
  {
    var p := StripLeadingSlash(path);
    if ParsePath(p).1 != "" {
      DirectoryKey(p + "/");
    }
  }

  /** The name of a format as a model carries it. */
  function FormatName(f: Format): string {
    match f
    case Text => "text"
    case Base64 => "base64"
    case Json => "json"
  }

  /** list_checkpoints of a file finds a checkpoint: the bucket of the id-less checkpoint
      path is stored, and the listing of its key has a direct object. */
  ghost predicate CheckpointListed(store: Store, cp: string) {
    ParsePath(cp).0 in store && DirectObjects(store[ParsePath(cp).0], ParsePath(cp).1) != {}
  }

  /** The model `get(path, content=True)` builds of a stored file blob, with no type asked. */
  function ReadBack(c: Codecs, q: string, b: string, k: string, blob: Blob): Result<ContentModel> {
    if IsNotebookRequest(q, None) then NotebookModel(c, BlobRef(b, k), blob, true)
    else FileModel(c, BlobRef(b, k), blob, true, None)
  }

  /** What create_checkpoint uploads for a model read back with content: a notebook's JSON
      text as UTF-8 with the notebook content type, or a file's content encoded by its
      format with the default one; nothing for anything else, or content that does not
      encode. */
  function CheckpointUpload(c: Codecs, m: Result<ContentModel>, cp: string): Option<(seq<Byte>, string)> {
    if m.Err? then None
    else if m.value.kind == Notebook && m.value.content.NotebookDoc? then
      var bytes := c.utf8Encode(c.notebookWrite(m.value.content.doc));
      if bytes.Some? then Some((bytes.value, NotebookMime)) else None
    else if m.value.kind == File && m.value.content.FileText? && m.value.format.Some? then
      var bytes := EncodeForSave(c, cp, m.value.content.text, Some(FormatName(m.value.format.value)));
      if bytes.Ok? then Some((bytes.value, UploadDefaultMime)) else None
    else None
  }

  /** An error or a directory model gives create_checkpoint nothing to upload. */
  lemma NothingToUpload(c: Codecs, m: Result<ContentModel>, cp: string)
    requires m.Ok? ==> m.value.kind == Directory
    ensures CheckpointUpload(c, m, cp) == None
  {
  }

  /** The store differs at most in one blob of one stored bucket, which is now present. */
  ghost predicate OnlyBlobWritten(before: Store, after: Store, b: string, k: string) {
    && b in before && b in after && after - {b} == before - {b}
    && k in after[b] && after[b] - {k} == before[b] - {k}
  }

  lemma OnlyBlobWrittenKeys(before: Store, after: Store, b: string, k: string)
    requires OnlyBlobWritten(before, after, b, k)
    ensures after.Keys == before.Keys
  {
    forall n | n in after ensures n in before {
      if n != b {
        assert n in after - {b};
      }
    }
    forall n | n in before ensures n in after {
      if n != b {
        assert n in before - {b};
      }
    }
  }

  /** After a notebook save the notebook's blob is stored, whether or not a checkpoint was
      written beside it. */
  lemma NotebookSaveKeeps(before: Store, after: Store, b: string, k: string, bytes: seq<Byte>,
                          stamp: int, cb: string, ck: string)
    requires NotebookSaveOutcome(before, after, b, k, bytes, stamp, cb, ck)
    ensures b in after && k in after[b]
  {
    var written := before[b := before[b][k := Blob(bytes, Some(NotebookMime), stamp)]];
    if after != written {
      if b != cb {
        assert b in written - {cb};
        assert after[b] == (after - {cb})[b] == (written - {cb})[b];
      } else if k != ck {
        assert k in written[b] - {ck};
      }
    }
  }

  lemma BlobWritten(before: Store, after: Store, b: string, k: string, blob: Blob)
    requires b in before && after == before[b := before[b][k := blob]]
    ensures OnlyBlobWritten(before, after, b, k)
  {
    UpdateElsewhere(before, after, b, before[b][k := blob]);
  }

  /** The listed keys whose checkpoint entry is e. */
  ghost function KeysGiving(e: CheckpointEntry, b: string, bucket: Bucket, keys: set<string>): set<string>
    requires keys <= bucket.Keys
  {
    set key | key in keys && EntryOf(BlobRef(b, key), bucket[key]) == e
  }

  /** The checkpoint entries of the listed keys, one per key: each entry occurs as often as
      there are listed keys that give it. */
  ghost predicate EntriesOf(s: seq<CheckpointEntry>, b: string, bucket: Bucket, keys: set<string>)
    requires keys <= bucket.Keys
  {
    && |s| == |keys|
    && (forall e :: multiset(s)[e] == |KeysGiving(e, b, bucket, keys)|)
  }

  /** Every listed key's entry is in the list, and every element of the list is the entry
      of a listed key. */
  lemma EntriesOfMembers(s: seq<CheckpointEntry>, b: string, bucket: Bucket, keys: set<string>)
    requires keys <= bucket.Keys && EntriesOf(s, b, bucket, keys)
    ensures forall key :: key in keys ==> EntryOf(BlobRef(b, key), bucket[key]) in s
    ensures forall i :: 0 <= i < |s| ==> exists key :: key in keys && s[i] == EntryOf(BlobRef(b, key), bucket[key])
  {
    forall key | key in keys ensures EntryOf(BlobRef(b, key), bucket[key]) in s {
      var e := EntryOf(BlobRef(b, key), bucket[key]);
      assert key in KeysGiving(e, b, bucket, keys);
      assert multiset(s)[e] > 0;
    }
    forall i | 0 <= i < |s|
      ensures exists key :: key in keys && s[i] == EntryOf(BlobRef(b, key), bucket[key])
    {
      assert s[i] in multiset(s);
      var key :| key in KeysGiving(s[i], b, bucket, keys);
    }
  }

  lemma EntriesOfAdd(s: seq<CheckpointEntry>, b: string, bucket: Bucket, keys: set<string>, key: string)
    requires keys <= bucket.Keys && key in bucket && key !in keys
    requires EntriesOf(s, b, bucket, keys)
    ensures EntriesOf(s + [EntryOf(BlobRef(b, key), bucket[key])], b, bucket, keys + {key})
  {
    var x := EntryOf(BlobRef(b, key), bucket[key]);
    var t := s + [x];
    assert multiset(t) == multiset(s) + multiset{x};
    forall e ensures multiset(t)[e] == |KeysGiving(e, b, bucket, keys + {key})| {
      KeysGivingAdd(e, b, bucket, keys, key);
    }
  }

  /** A key not yet listed adds one to the count of its own entry only. */
  lemma KeysGivingAdd(e: CheckpointEntry, b: string, bucket: Bucket, keys: set<string>, key: string)
    requires keys <= bucket.Keys && key in bucket && key !in keys
    ensures |KeysGiving(e, b, bucket, keys + {key})| ==
      |KeysGiving(e, b, bucket, keys)| + if EntryOf(BlobRef(b, key), bucket[key]) == e then 1 else 0
  {
    if EntryOf(BlobRef(b, key), bucket[key]) == e {
      assert KeysGiving(e, b, bucket, keys + {key}) == KeysGiving(e, b, bucket, keys) + {key};
    } else {
      assert KeysGiving(e, b, bucket, keys + {key}) == KeysGiving(e, b, bucket, keys);
    }
  }

  /** One more key taken from those still to do. */
  lemma EntriesOfStep(s: seq<CheckpointEntry>, b: string, bucket: Bucket, keys: set<string>, todo: set<string>,
                      key: string)
    requires keys <= bucket.Keys && todo <= keys && key in todo
    requires EntriesOf(s, b, bucket, keys - todo)
    ensures EntriesOf(s + [EntryOf(BlobRef(b, key), bucket[key])], b, bucket, keys - (todo - {key}))
  {
    EntriesOfAdd(s, b, bucket, keys - todo, key);
    assert keys - (todo - {key}) == (keys - todo) + {key};
  }

  /** The entries of the keys, in any order. */
  lemma EntriesOfPermuted(s: seq<CheckpointEntry>, t: seq<CheckpointEntry>, b: string, bucket: Bucket, keys: set<string>)
    requires keys <= bucket.Keys
    requires EntriesOf(s, b, bucket, keys) && multiset(t) == multiset(s)
    ensures EntriesOf(t, b, bucket, keys)
  {
    assert |t| == |multiset(t)| == |multiset(s)| == |s|;
  }

  /** Every model in a listing was built without content. */
  predicate AllBare(entries: seq<ContentModel>) {
    forall i :: 0 <= i < |entries| ==> entries[i].content == NoContent
  }

  lemma AllBareConcat(a: seq<ContentModel>, b: seq<ContentModel>)
    requires AllBare(a) && AllBare(b)
    ensures AllBare(a + b)
  {
    var e := a + b;
    forall i | 0 <= i < |e| ensures e[i].content == NoContent {
      if i < |a| {
        assert e[i] == a[i];
      } else {
        assert e[i] == b[i - |a|];
      }
    }
  }

  /** The last character decides whether a string ends in "/". */
  lemma EndsWithSlash(s: string)
    ensures EndsWith(s, "/") <==> |s| > 0 && s[|s| - 1] == '/'
  {
    if |s| > 0 {
      assert s[|s| - 1..] == [s[|s| - 1]];
    }
  }

  /** A path with a bucket name does not start with "/", so `get` requests it as it is, and
      it is a directory request exactly when its key is a directory key, under that very
      path. */
  lemma OwnPathShape(p: string)
    requires ParsePath(p).0 != ""
    ensures TargetPath(PathArg(p)) == p
    ensures IsDirectoryRequest(p, None) <==> IsDirKey(ParsePath(p).1)
    ensures IsDirKey(ParsePath(p).1) ==> DirectoryPath(p) == p
  {
    var b, k := ParsePath(p).0, ParsePath(p).1;
    EndsWithSlash(p);
    EndsWithSlash(k);
    if '/' in p {
      ParsePathSplit(p);
      assert p[0] == b[0];
      if k == "" {
        assert p[|p| - 1] == '/';
      } else {
        assert p[|p| - 1] == k[|k| - 1];
      }
    }
  }

  /** The model _dir_model starts from: a directory of that path and name, with the
      directory mimetype, no timestamps, no content and no format. */
  function DirBase(path: string, writable: bool): ContentModel {
    ContentModel(Directory, DirName(path), path, None, None, NoContent, None, Some(DirectoryMime), writable)
  }

  class Manager {
    /** The storage service's state, as the client sees it. */
    var store: Store
    /** _bucket_cache. */
    var cache: map<string, BucketHandle>
    /** The service's clock, giving each upload a later `updated` stamp. */
    var clock: int
    var checkpoints: Checkpoints?
    /** cache_buckets. */
    const cacheBuckets: bool
    /** Buckets that exist but that these credentials may not read. */
    const forbidden: set<string>
    const codecs: Codecs
    /** ContentsManager.should_list (the hide_globs filter). */
    const shouldList: string -> bool

    ghost predicate Valid()
      reads this
    {
      && (forall n :: n in store ==> ValidBucketName(n))
      && (forall n :: n in cache ==> cache[n] == BucketHandle(n) && ValidBucketName(n) && n !in forbidden)
      && (!cacheBuckets ==> cache == map[])
      && checkpoints != null && checkpoints.parent == this
    }

    /** The cache only gained names that were looked up successfully, and only lost names of
        buckets that are gone. */
    ghost predicate CacheEvolved(before: map<string, BucketHandle>, storeBefore: Store)
      reads this`cache, this`store
    {
      CacheStep(before, cache, storeBefore, store)
    }

    constructor (store: Store, cacheBuckets: bool, forbidden: set<string>, codecs: Codecs,
                 shouldList: string -> bool, checkpointDir: string, checkpointBucket: string)
      requires forall n :: n in store ==> ValidBucketName(n)
      ensures Valid()
      ensures this.store == store && cache == map[] && clock == 0
      ensures this.cacheBuckets == cacheBuckets && this.forbidden == forbidden
      ensures this.codecs == codecs && this.shouldList == shouldList
      ensures checkpoints.checkpointDir == checkpointDir && checkpoints.checkpointBucket == checkpointBucket
    {
      this.store := store;
      this.cache := map[];
      this.clock := 0;
      this.cacheBuckets := cacheBuckets;
      this.forbidden := forbidden;
      this.codecs := codecs;
      this.shouldList := shouldList;
      this.checkpoints := null;
      new;
      checkpoints := new Checkpoints(this, checkpointDir, checkpointBucket);
    }

    /** True when get_bucket(name) hands back a bucket object, from the cache or the client. */
    ghost predicate HasHandle(name: string)
      reads this`cache, this`store
    {
      (cacheBuckets && name in cache) || LookupBucket(store, forbidden, name) == Found
    }

    /** A stored bucket can be had exactly when it is not refused. */
    lemma HandleOfStored(name: string)
      requires Valid() && name in store
      ensures HasHandle(name) <==> name !in forbidden
    {
    }

    /** _get_bucket. With caching on, a hit returns the cached handle without asking the
        client, and a handle is stored only after a successful lookup. NotFound (and
        BadRequest, with caching on) give None, or are re-raised when `throw` is set;
        Forbidden always propagates, and so does BadRequest with caching off. */
    method GetBucket(name: string, throw: bool) returns (r: Result<Option<BucketHandle>>)
      requires Valid()
      modifies this`cache
      ensures Valid()
      ensures cacheBuckets && name in old(cache) ==> r == Ok(Some(BucketHandle(name))) && cache == old(cache)
      ensures !(cacheBuckets && name in old(cache)) ==>
        match LookupBucket(store, forbidden, name)
        case Found =>
          && r == Ok(Some(BucketHandle(name)))
          && cache == (if cacheBuckets then old(cache)[name := BucketHandle(name)] else old(cache))
        case Missing => r == (if throw then Err(NotFound) else Ok(None)) && cache == old(cache)
        case Invalid => r == (if throw || !cacheBuckets then Err(BadRequest) else Ok(None)) && cache == old(cache)
        case Denied => r == Err(Forbidden) && cache == old(cache)
      ensures r.Ok? && r.value.Some? <==> old(HasHandle(name))
      ensures r.Ok? && r.value.Some? <==> HasHandle(name)
      ensures r.Ok? && r.value.Some? ==> r.value.value == BucketHandle(name) && ValidBucketName(name) && name !in forbidden
      ensures r.Ok? && r.value.Some? && cacheBuckets ==> name in cache
      ensures CacheEvolved(old(cache), store)
    {
      if cacheBuckets && name in cache {
        return Ok(Some(cache[name]));
      }
      match LookupBucket(store, forbidden, name)
      case Found =>
        if cacheBuckets {
          cache := cache[name := BucketHandle(name)];
        }
        r := Ok(Some(BucketHandle(name)));
      case Missing =>
        r := if throw then Err(NotFound) else Ok(None);
      case Invalid =>
        r := if throw || !cacheBuckets then Err(BadRequest) else Ok(None);
      case Denied =>
        r := Err(Forbidden);
    }

    /** _fetch. The root lists every bucket. A forbidden bucket "exists" with nothing to
        show; a bucket that cannot be had does not exist. A directory key exists when its
        marker blob exists or its one-level listing is not empty (the root of a bucket
        always does), and a listing that finds the bucket gone evicts it from the cache. A
        file key without content is reported present without asking the service; with
        content it is the blob, if there is one. */
    method Fetch(path: string, content: bool) returns (r: Result<Fetched>)
      requires Valid()
      modifies this`cache
      ensures Valid()
      ensures CacheEvolved(old(cache), store)
      ensures path == "" ==> r == Ok(Fetched(true, Members({}, store.Keys))) && cache == old(cache)
      ensures var b := ParsePath(path).0; path != "" && !old(HasHandle(b)) ==> cache == old(cache)
      ensures var b := ParsePath(path).0; path != "" && !old(HasHandle(b)) ==>
        r == match LookupBucket(store, forbidden, b)
             case Denied => Ok(Fetched(true, NoPayload))
             case Invalid => if cacheBuckets then Ok(Fetched(false, NoPayload)) else Err(BadRequest)
             case _ => Ok(Fetched(false, NoPayload))
      ensures var b, k := ParsePath(path).0, ParsePath(path).1;
        path != "" && old(HasHandle(b)) && b !in store && IsDirKey(k) ==>
        r == Ok(Fetched(false, NoPayload)) && cache == old(cache) - {b}
      ensures var b, k := ParsePath(path).0, ParsePath(path).1;
        path != "" && old(HasHandle(b)) && !(b !in store && IsDirKey(k)) ==>
        cache == if cacheBuckets then old(cache)[b := BucketHandle(b)] else old(cache)
      ensures var b, k := ParsePath(path).0, ParsePath(path).1;
        path != "" && old(HasHandle(b)) && b in store && IsDirKey(k) ==>
        r == Ok(Fetched(DirPresent(store[b], k),
                  if content then Members(RefsOf(b, DirectObjects(store[b], k)), Folders(store[b], k))
                  else NoPayload))
      ensures var b, k := ParsePath(path).0, ParsePath(path).1;
        path != "" && old(HasHandle(b)) && !IsDirKey(k) ==>
        r == if !content then Ok(Fetched(true, NoPayload))
             else if b in store && k in store[b] then Ok(Fetched(true, BlobHit(BlobRef(b, k), store[b][k])))
             else Ok(Fetched(false, NoPayload))
    {
      if path == "" {
        return Ok(Fetched(true, Members({}, store.Keys)));
      }
      var b, k := ParsePath(path).0, ParsePath(path).1;
      var h := GetBucket(b, false);
      if h.Err? {
        if h.error == Forbidden {
          return Ok(Fetched(true, NoPayload));
        }
        return Err(h.error);
      }
      if h.value.None? {
        return Ok(Fetched(false, NoPayload));
      }
      if IsDirKey(k) {
        if k != "" && !content && b in store && k in store[b] {
          return Ok(Fetched(true, NoPayload));
        }
        if b !in store {
          cache := cache - {b};
          return Ok(Fetched(false, NoPayload));
        }
        var files := DirectObjects(store[b], k);
        var folders := Folders(store[b], k);
        ListingShowsDirectory(store[b], k);
        return Ok(Fetched(files != {} || folders != {} || k == "",
                          if content then Members(RefsOf(b, files), folders) else NoPayload));
      }
      if !content {
        return Ok(Fetched(true, NoPayload));
      }
      if b in store && k in store[b] {
        return Ok(Fetched(true, BlobHit(BlobRef(b, k), store[b][k])));
      }
      return Ok(Fetched(false, NoPayload));
    }

    /** is_hidden: only a bucket that cannot be had (missing, refused or, with caching on,
        an invalid name) is hidden; the root never is. */
    method IsHidden(path: string) returns (r: Result<bool>)
      requires Valid()
      modifies this`cache
      ensures Valid()
      ensures CacheEvolved(old(cache), store)
      ensures path == "" ==> r == Ok(false)
      ensures path != "" && HasHandle(ParsePath(path).0) ==> r == Ok(false)
      ensures var b := ParsePath(path).0; path != "" && !HasHandle(b) ==>
        r == if LookupBucket(store, forbidden, b) == Invalid && !cacheBuckets then Err(BadRequest) else Ok(true)
    {
      if path == "" {
        return Ok(false);
      }
      var h := GetBucket(ParsePath(path).0, false);
      if h.Err? {
        if h.error == Forbidden {
          return Ok(true);
        }
        return Err(h.error);
      }
      return Ok(h.value.None?);
    }

    /** file_exists: a stored blob whose key is neither empty nor ends in "/" (such blobs are
        treated as directories). A refused bucket raises. */
    method FileExists(path: string) returns (r: Result<bool>)
      requires Valid()
      modifies this`cache
      ensures Valid()
      ensures CacheEvolved(old(cache), store)
      ensures path == "" ==> r == Ok(false)
      ensures var b, k := ParsePath(StripLeadingSlash(path)).0, ParsePath(StripLeadingSlash(path)).1;
        path != "" && old(HasHandle(b)) ==> r == Ok(b in store && k in store[b] && !IsDirKey(k))
      ensures var b := ParsePath(StripLeadingSlash(path)).0; path != "" && !old(HasHandle(b)) ==>
        r == match LookupBucket(store, forbidden, b)
             case Denied => Err(Forbidden)
             case Invalid => if cacheBuckets then Ok(false) else Err(BadRequest)
             case _ => Ok(false)
      ensures r == Ok(true) ==>
        var b, k := ParsePath(StripLeadingSlash(path)).0, ParsePath(StripLeadingSlash(path)).1;
        b in store && k in store[b] && k != "" && !EndsWith(k, "/")
    {
      if path == "" {
        return Ok(false);
      }
      var p := StripLeadingSlash(path);
      var b, k := ParsePath(p).0, ParsePath(p).1;
      var h := GetBucket(b, false);
      if h.Err? {
        return Err(h.error);
      }
      if h.value.None? || k == "" || EndsWith(k, "/") {
        return Ok(false);
      }
      return Ok(b in store && k in store[b]);
    }

    /** dir_exists: the root always exists; any other path is fetched as a directory
        without content. */
    method DirExists(path: string) returns (r: Result<bool>)
      requires Valid()
      modifies this`cache
      ensures Valid()
      ensures CacheEvolved(old(cache), store)
      ensures StripLeadingSlash(path) == "" ==> r == Ok(true)
      ensures var q := AsDirectory(StripLeadingSlash(path));
        var b, k := ParsePath(q).0, ParsePath(q).1;
        StripLeadingSlash(path) != "" && old(HasHandle(b)) ==>
        IsDirKey(k) && r == Ok(b in store && DirPresent(store[b], k))
      ensures var b := ParsePath(AsDirectory(StripLeadingSlash(path))).0;
        StripLeadingSlash(path) != "" && !old(HasHandle(b)) ==>
        r == match LookupBucket(store, forbidden, b)
             case Denied => Ok(true)
             case Invalid => if cacheBuckets then Ok(false) else Err(BadRequest)
             case _ => Ok(false)
    {
      var p := StripLeadingSlash(path);
      if p == "" {
        return Ok(true);
      }
      p := AsDirectory(p);
      DirectoryKey(p);
      var f := Fetch(p, false);
      if f.Err? {
        return Err(f.error);
      }
      return Ok(f.value.found);
    }

    /** The paths _dir_model lists for a directory: each file other than the directory's
        own marker, and each folder other than the directory itself, that should_list lets
        through, as the path of the model `get` returns for it. */
    function ListedPaths(path: string, files: set<BlobRef>, folders: set<string>): set<string> {
      ListedFilePaths(path, files) + ListedFolderPaths(path, folders)
    }

    predicate ListsFile(path: string, f: BlobRef) {
      BlobPathOf(f) != path && shouldList(BlobNameOf(f))
    }

    predicate ListsFolder(path: string, g: string) {
      shouldList(g) && g != ParsePath(path).1
    }

    function ListedFilePaths(path: string, files: set<BlobRef>): set<string> {
      set f | f in files && ListsFile(path, f) :: TargetPath(BlobArg(f))
    }

    function ListedFolderPaths(path: string, folders: set<string>): set<string> {
      set g | g in folders && ListsFolder(path, g) :: TargetPath(PathArg(FolderPath(path, g)))
    }

    /** The files _dir_model lists: each other than the directory's own marker that
        should_list lets through. */
    function ListedFiles(path: string, files: set<BlobRef>): set<BlobRef> {
      set f | f in files && ListsFile(path, f)
    }

    /** The folders _dir_model lists: each other than the directory itself that should_list
        lets through. */
    function ListedFolders(path: string, folders: set<string>): set<string> {
      set g | g in folders && ListsFolder(path, g)
    }

    /** One more file visited adds one to the count of listed files when it is listed, and
        nothing otherwise. */
    lemma ListedFilesCount(path: string, files: set<BlobRef>, todo: set<BlobRef>, f: BlobRef)
      requires f in todo && todo <= files
      ensures |ListedFiles(path, files - (todo - {f}))| ==
        |ListedFiles(path, files - todo)| + if ListsFile(path, f) then 1 else 0
    {
      var before, after := ListedFiles(path, files - todo), ListedFiles(path, files - (todo - {f}));
      if ListsFile(path, f) {
        assert after == before + {f};
        assert f !in before;
      } else {
        assert after == before;
      }
    }

    /** The same for the folders. */
    lemma ListedFoldersCount(path: string, folders: set<string>, todo: set<string>, g: string)
      requires g in todo && todo <= folders
      ensures |ListedFolders(path, folders - (todo - {g}))| ==
        |ListedFolders(path, folders - todo)| + if ListsFolder(path, g) then 1 else 0
    {
      var before, after := ListedFolders(path, folders - todo), ListedFolders(path, folders - (todo - {g}));
      if ListsFolder(path, g) {
        assert after == before + {g};
        assert g !in before;
      } else {
        assert after == before;
      }
    }

    /** One step of the listing loop over the files: a listed file adds its path. */
    lemma FileListed(path: string, files: set<BlobRef>, todo: set<BlobRef>, f: BlobRef,
                     entries: seq<ContentModel>, m: ContentModel)
      requires f in todo && todo <= files && ListsFile(path, f)
      requires EntryPaths(entries) == ListedFilePaths(path, files - todo)
      requires m.path == TargetPath(BlobArg(f))
      ensures EntryPaths(entries + [m]) == ListedFilePaths(path, files - (todo - {f}))
    {
      assert files - (todo - {f}) == (files - todo) + {f};
      EntryPathsAppend(entries, m);
    }

    /** A file that is not listed adds nothing. */
    lemma FileSkipped(path: string, files: set<BlobRef>, todo: set<BlobRef>, f: BlobRef)
      requires f in todo && todo <= files && !ListsFile(path, f)
      ensures ListedFilePaths(path, files - todo) == ListedFilePaths(path, files - (todo - {f}))
    {
      assert files - (todo - {f}) == (files - todo) + {f};
    }

    /** The same two steps for the folders. */
    lemma FolderListed(path: string, folders: set<string>, todo: set<string>, g: string,
                       entries: seq<ContentModel>, m: ContentModel)
      requires g in todo && todo <= folders && ListsFolder(path, g)
      requires EntryPaths(entries) == ListedFolderPaths(path, folders - todo)
      requires m.path == TargetPath(PathArg(FolderPath(path, g)))
      ensures EntryPaths(entries + [m]) == ListedFolderPaths(path, folders - (todo - {g}))
    {
      assert folders - (todo - {g}) == (folders - todo) + {g};
      EntryPathsAppend(entries, m);
    }

    lemma FolderSkipped(path: string, folders: set<string>, todo: set<string>, g: string)
      requires g in todo && todo <= folders && !ListsFolder(path, g)
      ensures ListedFolderPaths(path, folders - todo) == ListedFolderPaths(path, folders - (todo - {g}))
    {
      assert folders - (todo - {g}) == (folders - todo) + {g};
    }

    /** get. A directory request (no "/", a trailing "/", or type "directory") that names
        another type is refused with 400; otherwise the directory is fetched (with "/"
        appended when needed), 404 when it does not exist, and its model built. Any other
        path is fetched as a blob, 404 when absent, and read as a notebook when the type
        says so or, with no type, when the name ends in ".ipynb", else as a file. */
    method Get(t: Target, content: bool, kind: Option<string>, format: Option<string>) returns (r: Result<ContentModel>)
      requires Valid()
      modifies this`cache
      decreases if content then 1 else 0, 7
      ensures Valid()
      ensures CacheEvolved(old(cache), store)
      ensures r.Ok? ==> r.value.path == RequestPath(t, kind)
      ensures r.Ok? ==> (r.value.content == NoContent <==> !content)
      ensures r.Ok? ==> (r.value.kind == Directory <==> IsDirectoryRequest(TargetPath(t), kind))
      ensures IsDirectoryRequest(TargetPath(t), kind) && kind != None && kind != Some("directory") ==>
        r == Err(Http(400, TargetPath(t)))
      ensures var p := TargetPath(t); var b, k := ParsePath(p).0, ParsePath(p).1;
        !IsDirectoryRequest(p, kind) && old(HasHandle(b)) ==>
        r == if b !in store || k !in store[b] then Err(Http(404, p))
             else if IsNotebookRequest(p, kind) then NotebookModel(codecs, BlobRef(b, k), store[b][k], content)
             else FileModel(codecs, BlobRef(b, k), store[b][k], content, format)
      ensures var p := TargetPath(t); var b := ParsePath(p).0;
        !IsDirectoryRequest(p, kind) && !old(HasHandle(b)) ==>
        r == match LookupBucket(store, forbidden, b)
             case Denied => Err(Crash)
             case Invalid => if cacheBuckets then Err(Http(404, p)) else Err(BadRequest)
             case _ => Err(Http(404, p))
      ensures IsDirectoryRequest(TargetPath(t), kind) && r.Ok? ==> DirectoryListed(RequestPath(t, kind), content, r.value)
      ensures (IsDirectoryRequest(TargetPath(t), kind) && (kind == None || kind == Some("directory")) &&
               DirectoryMissing(RequestPath(t, kind))) ==>
        r == Err(Http(404, RequestPath(t, kind)))
      ensures IsDirectoryRequest(TargetPath(t), kind) && (kind == None || kind == Some("directory")) ==>
        (r.Ok? <==> DirectoryReadable(RequestPath(t, kind), content))
    {
      var p := TargetPath(t);
      if IsDirectoryRequest(p, kind) {
        if kind != None && kind != Some("directory") {
          return Err(Http(400, p));
        }
        DirectoryRequestKey(p, kind);
        r := GetDirectory(DirectoryPath(p), content);
      } else {
        r := GetFile(p, content, kind, format);
      }
    }

    /** What a directory model returned by `get` guarantees: a directory of that path and
        name, whose bucket holds the directory (or is refused), listing exactly the entries
        _dir_model selects from the bucket's one-level listing, or from the bucket names at
        the root. */
    ghost predicate DirectoryListed(q: string, content: bool, m: ContentModel)
      reads this`store
    {
      var b, k := ParsePath(q).0, ParsePath(q).1;
      && m.kind == Directory && m.path == q && m.name == DirName(q)
      && (m.content == NoContent <==> !content)
      && (q != "" && b in store ==> DirPresent(store[b], k) || b in forbidden)
      && (content ==> (q == "" || b in store) && ListsMembers(m, q, DirectoryMembers(q)))
    }

    /** What _fetch lists for a directory: every bucket at the root, else the direct objects
        and the folders under the key. */
    ghost function DirectoryMembers(q: string): Payload
      reads this`store
    {
      var b, k := ParsePath(q).0, ParsePath(q).1;
      if q == "" then Members({}, store.Keys)
      else if b in store then Members(RefsOf(b, DirectObjects(store[b], k)), Folders(store[b], k))
      else NoPayload
    }

    /** A directory `get` answers 404 for: its bucket is stored but holds nothing under the
        key, or is missing and is not a name that makes the client fail first. */
    ghost predicate DirectoryMissing(q: string)
      reads this`store
    {
      var b, k := ParsePath(q).0, ParsePath(q).1;
      && q != ""
      && (b in store ==> b !in forbidden && !DirPresent(store[b], k))
      && (b !in store ==> cacheBuckets || ValidBucketName(b))
    }

    /** A directory _fetch finds: the root, or a directory of a stored bucket that holds
        something under its key, or whose bucket is refused. */
    ghost predicate DirectoryPresent(q: string)
      reads this`store
    {
      var b, k := ParsePath(q).0, ParsePath(q).1;
      q == "" || (b in store && (b in forbidden || DirPresent(store[b], k)))
    }

    /** A directory `get` answers with a model: one that is present and, when its content
        is asked for, not in a refused bucket (which has no listing to unpack). */
    ghost predicate DirectoryReadable(q: string, content: bool)
      reads this`store
    {
      DirectoryPresent(q) && (content && q != "" ==> ParsePath(q).0 !in forbidden)
    }

    /** A target `get(t, content=False)` answers with a model: a present directory, or a
        stored blob in a bucket that is not refused. */
    ghost predicate EntryShown(t: Target)
      reads this`store
    {
      var p := TargetPath(t);
      var b, k := ParsePath(p).0, ParsePath(p).1;
      if IsDirectoryRequest(p, None) then DirectoryPresent(DirectoryPath(p))
      else b in store && b !in forbidden && k in store[b]
    }

    /** A stored blob of a bucket that is not refused has a model under its own path: `get`
        shows it as a file, or, for a directory key, as the directory the blob makes present. */
    lemma StoredBlobShown(p: string)
      requires Valid()
      requires ParsePath(p).0 in store && ParsePath(p).0 !in forbidden
      requires ParsePath(p).1 in store[ParsePath(p).0]
      ensures EntryShown(PathArg(p))
    {
      assert ValidBucketName(ParsePath(p).0);
      OwnPathShape(p);
    }

    /** A present directory named by a directory key has a model under its own path. */
    lemma PresentDirectoryShown(p: string)
      requires Valid()
      requires IsDirKey(ParsePath(p).1) && DirectoryPresent(p)
      ensures EntryShown(PathArg(p))
    {
      if p != "" {
        assert ValidBucketName(ParsePath(p).0);
        OwnPathShape(p);
      }
    }

    /** Every file the listing of a directory shows has a model. */
    ghost predicate FilesShown(path: string, files: set<BlobRef>)
      reads this`store
    {
      forall f :: f in files && ListsFile(path, f) ==> EntryShown(BlobArg(f))
    }

    /** Every folder the listing of a directory shows has a model. */
    ghost predicate FoldersShown(path: string, folders: set<string>)
      reads this`store
    {
      forall g :: g in folders && ListsFolder(path, g) ==> EntryShown(PathArg(FolderPath(path, g)))
    }

    /** The directory branch of `get`, on the path with its "/" appended. It answers with a
        model exactly for a readable directory. */
    method GetDirectory(q: string, content: bool) returns (r: Result<ContentModel>)
      requires Valid()
      requires IsDirKey(ParsePath(q).1)
      modifies this`cache
      decreases if content then 1 else 0, 6
      ensures Valid()
      ensures CacheEvolved(old(cache), store)
      ensures r.Ok? ==> DirectoryListed(q, content, r.value)
      ensures DirectoryMissing(q) ==> r == Err(Http(404, q))
      ensures r.Ok? <==> DirectoryReadable(q, content)
    {
      var f := FetchDirectory(q, content);
      if f.Err? {
        return Err(f.error);
      }
      if !f.value.found {
        return Err(Http(404, q));
      }
      r := FoundDirectory(q, f.value.payload, content);
    }

    /** The model of a directory _fetch found, with the payload it brought. */
    method FoundDirectory(q: string, payload: Payload, content: bool) returns (r: Result<ContentModel>)
      requires Valid()
      requires DirectoryPresent(q) && DirectoryFound(q, content, payload)
      modifies this`cache
      decreases if content then 1 else 0, 5
      ensures Valid()
      ensures CacheEvolved(old(cache), store)
      ensures r.Ok? ==> DirectoryListed(q, content, r.value)
      ensures r.Ok? <==> DirectoryReadable(q, content)
    {
      if content {
        r := FoundListing(q, payload);
      } else {
        r := FoundEntry(q, payload);
      }
    }

    /** FoundDirectory with content: the listing, unless the bucket is refused. */
    method FoundListing(q: string, payload: Payload) returns (r: Result<ContentModel>)
      requires Valid()
      requires DirectoryPresent(q) && DirectoryFound(q, true, payload)
      modifies this`cache
      decreases 1, 4
      ensures Valid()
      ensures CacheEvolved(old(cache), store)
      ensures r.Ok? ==> DirectoryListed(q, true, r.value)
      ensures r.Ok? <==> DirectoryReadable(q, true)
    {
      if q != "" && ParsePath(q).0 in forbidden {
        assert payload == NoPayload;
        r := DirModel(q, payload, true);
        return;
      }
      MembersShown(q);
      assert payload == DirectoryMembers(q);
      r := DirModel(q, payload, true);
      assert payload == DirectoryMembers(q);
      if r.Ok? {
        assert ListsMembers(r.value, q, payload);
        assert r.value.kind == Directory && r.value.path == q && r.value.name == DirName(q);
      }
    }

    /** FoundDirectory without content: a model of a present directory. */
    method FoundEntry(q: string, payload: Payload) returns (r: Result<ContentModel>)
      requires Valid()
      requires DirectoryPresent(q) && DirectoryFound(q, false, payload)
      modifies this`cache
      decreases 0, 4
      ensures Valid()
      ensures CacheEvolved(old(cache), store)
      ensures r.Ok? ==> DirectoryListed(q, false, r.value)
      ensures r.Ok?
    {
      if q != "" {
        ghost var b := ParsePath(q).0;
        assert b in store && LookupBucket(store, forbidden, b) != Invalid;
      }
      r := DirModel(q, payload, false);
    }

    /** Every entry of the listing of a readable directory has a model of its own: the
        buckets at the root, and below it the stored blobs and the folders, each of which
        holds something. */
    lemma MembersShown(q: string)
      requires Valid()
      requires DirectoryReadable(q, true)
      ensures DirectoryMembers(q).Members?
      ensures FilesShown(q, DirectoryMembers(q).files) && FoldersShown(q, DirectoryMembers(q).folders)
    {
      var b, k := ParsePath(q).0, ParsePath(q).1;
      if q == "" {
        forall g | g in store.Keys && ListsFolder(q, g)
          ensures EntryShown(PathArg(FolderPath(q, g)))
        {
          BucketShown(g);
        }
      } else {
        forall f | f in RefsOf(b, DirectObjects(store[b], k)) && ListsFile(q, f)
          ensures EntryShown(BlobArg(f))
        {
          BlobShown(f.bucket, f.key);
        }
        forall g | g in Folders(store[b], k) && ListsFolder(q, g)
          ensures EntryShown(PathArg(FolderPath(q, g)))
        {
          FolderShown(q, g);
        }
      }
    }

    /** A stored bucket, listed at the root, is a present directory. */
    lemma BucketShown(g: string)
      requires Valid() && g in store
      ensures EntryShown(PathArg(g))
    {
      ValidNameShape(g);
      assert TargetPath(PathArg(g)) == g;
    }

    /** A stored blob of a bucket that is not refused has a model, as a file or, for a key
        in directory form, as a present directory. */
    lemma BlobShown(b: string, key: string)
      requires Valid() && b in store && b !in forbidden && key in store[b]
      ensures EntryShown(BlobArg(BlobRef(b, key)))
    {
      ValidNameShape(b);
      BlobPathOfUrl(b, key);
      ParsePathJoin(b, key);
    }

    /** A folder listed below a directory of a stored bucket is a present directory. */
    lemma FolderShown(q: string, g: string)
      requires Valid() && q != ""
      requires ParsePath(q).0 in store && g in Folders(store[ParsePath(q).0], ParsePath(q).1)
      ensures EntryShown(PathArg(FolderPath(q, g)))
    {
      var b, k := ParsePath(q).0, ParsePath(q).1;
      var p := FolderPath(q, g);
      ValidNameShape(b);
      assert p == b + "/" + (g + "/");
      assert p[0] == b[0];
      assert TargetPath(PathArg(p)) == p;
      assert EndsWith(p, "/") && DirectoryPath(p) == p;
      ParsePathJoin(b, g + "/");
      FolderShape(store[b], k, g);
      SubPrefixShape(store[b], k, g + "/");
      var key :| key in store[b] && StartsWith(key, g + "/");
      PresentUnder(store[b], key, g + "/");
    }

    /** What _fetch reports for a directory: it finds exactly the present directories; a
        directory found in a stored bucket holds something under its key or is refused, a
        refused one brings no members, and any members are the listing of the key, which
        is brought whenever content is asked for and the bucket is not refused. */
    method FetchDirectory(q: string, content: bool) returns (r: Result<Fetched>)
      requires Valid()
      requires IsDirKey(ParsePath(q).1)
      modifies this`cache
      ensures Valid()
      ensures CacheEvolved(old(cache), store)
      ensures r.Ok? && r.value.found ==> DirectoryFound(q, content, r.value.payload)
      ensures r.Ok? ==> (r.value.found <==> DirectoryPresent(q))
      ensures DirectoryPresent(q) ==> r.Ok?
      ensures DirectoryMissing(q) ==> r.Ok? && !r.value.found
    {
      r := Fetch(q, content);
    }

    ghost predicate DirectoryFound(q: string, content: bool, payload: Payload)
      reads this`store
    {
      var b, k := ParsePath(q).0, ParsePath(q).1;
      && (q != "" ==> b in store && (DirPresent(store[b], k) || b in forbidden))
      && (q != "" && b in forbidden ==> payload == NoPayload)
      && (content && (q == "" || b !in forbidden) ==> payload.Members?)
      && (payload.Members? ==> payload == DirectoryMembers(q))
    }

    /** The file branch of `get`. */
    method GetFile(p: string, content: bool, kind: Option<string>, format: Option<string>) returns (r: Result<ContentModel>)
      requires Valid()
      requires !IsDirectoryRequest(p, kind)
      modifies this`cache
      ensures Valid()
      ensures CacheEvolved(old(cache), store)
      ensures r.Ok? ==> r.value.path == p && r.value.kind != Directory
      ensures r.Ok? ==> (r.value.content == NoContent <==> !content)
      ensures var b, k := ParsePath(p).0, ParsePath(p).1; old(HasHandle(b)) ==>
        r == if b !in store || k !in store[b] then Err(Http(404, p))
             else if IsNotebookRequest(p, kind) then NotebookModel(codecs, BlobRef(b, k), store[b][k], content)
             else FileModel(codecs, BlobRef(b, k), store[b][k], content, format)
      ensures var b := ParsePath(p).0; !old(HasHandle(b)) ==>
        r == match LookupBucket(store, forbidden, b)
             case Denied => Err(Crash)
             case Invalid => if cacheBuckets then Err(Http(404, p)) else Err(BadRequest)
             case _ => Err(Http(404, p))
    {
      FileKeyShape(p);
      FilePathRoundTrip(p);
      var f := Fetch(p, true);
      if f.Err? {
        return Err(f.error);
      }
      if !f.value.found {
        return Err(Http(404, p));
      }
      if !f.value.payload.BlobHit? {
        return Err(Crash);
      }
      if IsNotebookRequest(p, kind) {
        r := NotebookModel(codecs, f.value.payload.ref, f.value.payload.blob, content);
      } else {
        r := FileModel(codecs, f.value.payload.ref, f.value.payload.blob, content, format);
      }
    }

    /** A listing of exactly the entries _dir_model selects from the members, one for each
        listed file and folder, none of them with content. */
    ghost predicate ListsMembers(m: ContentModel, path: string, members: Payload)
    {
      && members.Members?
      && m.content.Listing?
      && EntryPaths(m.content.entries) == ListedPaths(path, members.files, members.folders)
      && |m.content.entries| == |ListedFiles(path, members.files)| + |ListedFolders(path, members.folders)|
      && AllBare(m.content.entries)
    }

    /** _dir_model. The model is writable unless the path is the root, or a directory
        fetched without members whose bucket is hidden. With content, it lists the files and
        then the folders of the members, each by a `get` without content; a directory
        without members (a refused bucket) cannot be listed. */
    method DirModel(path: string, members: Payload, content: bool) returns (r: Result<ContentModel>)
      requires Valid()
      modifies this`cache
      decreases if content then 1 else 0, 3
      ensures Valid()
      ensures CacheEvolved(old(cache), store)
      ensures r.Ok? ==> r.value.kind == Directory && r.value.path == path && r.value.name == DirName(path)
      ensures r.Ok? ==> r.value.mimetype == Some(DirectoryMime) && r.value.lastModified == None
      ensures r.Ok? ==> (r.value.content == NoContent <==> !content)
      ensures r.Ok? ==> (r.value.writable <==> if members == NoPayload && path != ""
                                                then HasHandle(ParsePath(path).0) else path != "")
      ensures content && !members.Members? ==> r.Err?
      ensures content && r.Ok? ==> r.value.format == Some(Json) && ListsMembers(r.value, path, members)
      ensures (!content && (members != NoPayload || path == "" || cacheBuckets ||
                            LookupBucket(store, forbidden, ParsePath(path).0) != Invalid)) ==> r.Ok?
      ensures (content && members.Members? && FilesShown(path, members.files) &&
               FoldersShown(path, members.folders)) ==> r.Ok?
    {
      if members == NoPayload && path != "" {
        r := UnlistedDirModel(path, content);
        return;
      }
      var model := ContentModel(Directory, DirName(path), path, None, None, NoContent, None,
                                Some(DirectoryMime), path != "");
      if !content {
        return Ok(model);
      }
      if !members.Members? {
        return Err(Crash);
      }
      r := AddListing(model, path, members);
    }

    /** _dir_model for a directory fetched without members: only such a directory asks
        is_hidden, which decides whether it is writable, and it has nothing to list. */
    method UnlistedDirModel(path: string, content: bool) returns (r: Result<ContentModel>)
      requires Valid() && path != ""
      modifies this`cache
      ensures Valid()
      ensures CacheEvolved(old(cache), store)
      ensures r.Ok? ==> r.value == DirBase(path, HasHandle(ParsePath(path).0))
      ensures content ==> r.Err?
      ensures !content && (cacheBuckets || LookupBucket(store, forbidden, ParsePath(path).0) != Invalid) ==> r.Ok?
    {
      var h := IsHidden(path);
      if h.Err? {
        return Err(h.error);
      }
      if content {
        return Err(Crash);
      }
      return Ok(DirBase(path, !h.value));
    }

    /** The directory model with the listing of its members as content, in format "json". */
    method AddListing(model: ContentModel, path: string, members: Payload) returns (r: Result<ContentModel>)
      requires Valid()
      requires members.Members?
      modifies this`cache
      decreases 1, 2
      ensures Valid()
      ensures CacheEvolved(old(cache), store)
      ensures r.Ok? ==> r.value == model.(content := r.value.content, format := Some(Json))
      ensures r.Ok? ==> ListsMembers(r.value, path, members)
      ensures FilesShown(path, members.files) && FoldersShown(path, members.folders) ==> r.Ok?
    {
      var entries := ListMembers(path, members.files, members.folders);
      if entries.Err? {
        return Err(entries.error);
      }
      return Ok(model.(content := Listing(entries.value), format := Some(Json)));
    }

    /** _dir_model's listing: the files, then the folders. */
    method ListMembers(path: string, files: set<BlobRef>, folders: set<string>) returns (r: Result<seq<ContentModel>>)
      requires Valid()
      modifies this`cache
      decreases 1, 1
      ensures Valid()
      ensures CacheEvolved(old(cache), store)
      ensures r.Ok? ==> EntryPaths(r.value) == ListedPaths(path, files, folders) && AllBare(r.value)
      ensures r.Ok? ==> |r.value| == |ListedFiles(path, files)| + |ListedFolders(path, folders)|
      ensures FilesShown(path, files) && FoldersShown(path, folders) ==> r.Ok?
    {
      ghost var cache0 := cache;
      var fileModels := ListFiles(path, files);
      if fileModels.Err? {
        return Err(fileModels.error);
      }
      ghost var cache1 := cache;
      var folderModels := ListFolders(path, folders);
      CacheStepTrans(cache0, cache1, cache, store, store, store);
      if folderModels.Err? {
        return Err(folderModels.error);
      }
      EntryPathsConcat(fileModels.value, folderModels.value);
      AllBareConcat(fileModels.value, folderModels.value);
      return Ok(fileModels.value + folderModels.value);

    }

    /** The `get(path, content=False)` _dir_model makes for each entry, with only what the
        listing needs of its contract. */
    method GetEntry(t: Target) returns (r: Result<ContentModel>)
      requires Valid()
      modifies this`cache
      decreases 0, 8
      ensures Valid()
      ensures CacheEvolved(old(cache), store)
      ensures r.Ok? ==> r.value.path == TargetPath(t) && r.value.content == NoContent
      ensures EntryShown(t) ==> r.Ok?
    {
      r := Get(t, false, None, None);
      UntypedRequestPath(t);
    }

    /** _dir_model's loop over the files: a model without content for each listed file. */
    method ListFiles(path: string, files: set<BlobRef>) returns (r: Result<seq<ContentModel>>)
      requires Valid()
      modifies this`cache
      decreases 1, 0
      ensures Valid()
      ensures CacheEvolved(old(cache), store)
      ensures r.Ok? ==> EntryPaths(r.value) == ListedFilePaths(path, files)
      ensures r.Ok? ==> |r.value| == |ListedFiles(path, files)|
      ensures r.Ok? ==> AllBare(r.value)
      ensures FilesShown(path, files) ==> r.Ok?
    {
      var entries: seq<ContentModel> := [];
      var todo := files;
      while todo != {}
        invariant Valid() && CacheEvolved(old(cache), store)
        invariant todo <= files
        invariant AllBare(entries)
        invariant EntryPaths(entries) == ListedFilePaths(path, files - todo)
        invariant |entries| == |ListedFiles(path, files - todo)|
        decreases todo
      {
        var f :| f in todo;
        ListedFilesCount(path, files, todo, f);
        if ListsFile(path, f) {
          var m := GetEntry(BlobArg(f));
          if m.Err? {
            return Err(m.error);
          }
          FileListed(path, files, todo, f, entries, m.value);
          entries := entries + [m.value];
        } else {
          FileSkipped(path, files, todo, f);
        }
        todo := todo - {f};
      }
      assert files - todo == files;
      return Ok(entries);
    }

    /** _dir_model's loop over the folders: a model without content for each listed folder,
        the directory itself excepted. */
    method ListFolders(path: string, folders: set<string>) returns (r: Result<seq<ContentModel>>)
      requires Valid()
      modifies this`cache
      decreases 1, 0
      ensures Valid()
      ensures CacheEvolved(old(cache), store)
      ensures r.Ok? ==> EntryPaths(r.value) == ListedFolderPaths(path, folders)
      ensures r.Ok? ==> |r.value| == |ListedFolders(path, folders)|
      ensures r.Ok? ==> AllBare(r.value)
      ensures FoldersShown(path, folders) ==> r.Ok?
    {
      var entries: seq<ContentModel> := [];
      var todo := folders;
      while todo != {}
        invariant Valid() && CacheEvolved(old(cache), store)
        invariant todo <= folders
        invariant AllBare(entries)
        invariant EntryPaths(entries) == ListedFolderPaths(path, folders - todo)
        invariant |entries| == |ListedFolders(path, folders - todo)|
        decreases todo
      {
        var g :| g in todo;
        ListedFoldersCount(path, folders, todo, g);
        if ListsFolder(path, g) {
          var m := GetEntry(PathArg(FolderPath(path, g)));
          if m.Err? {
            return Err(m.error);
          }
          FolderListed(path, folders, todo, g, entries, m.value);
          entries := entries + [m.value];
        } else {
          FolderSkipped(path, folders, todo, g);
        }
        todo := todo - {g};
      }
      assert folders - todo == folders;
      return Ok(entries);
    }

    /** blob.upload_from_string through a bucket handle: the blob at the key is replaced by
        one with the data, the content type and the service's current time; a bucket that
        is gone answers NotFound. */
    method Upload(b: string, k: string, data: seq<Byte>, mime: string) returns (r: Result<()>)
      requires Valid()
      modifies this`store, this`clock
      ensures Valid()
      ensures r == if b in old(store) then Ok(()) else Err(NotFound)
      ensures r.Ok? ==> store == old(store)[b := old(store)[b][k := Blob(data, Some(mime), old(clock))]]
      ensures r.Ok? ==> clock == old(clock) + 1
      ensures r.Err? ==> store == old(store) && clock == old(clock)
    {
      if b !in store {
        return Err(NotFound);
      }
      store := store[b := store[b][k := Blob(data, Some(mime), clock)]];
      clock := clock + 1;
      return Ok(());
    }

    /** _save_file: the bucket is looked up with `throw` set, then the content is encoded by
        its format and uploaded with the upload's default content type. */
    method SaveFile(path: string, content: string, format: Option<string>) returns (r: Result<()>)
      requires Valid()
      modifies this`cache, this`store, this`clock
      ensures Valid()
      ensures CacheStep(old(cache), cache, old(store), old(store))
      ensures var b, k := ParsePath(path).0, ParsePath(path).1;
        r == if !old(HasHandle(b)) then Err(ThrownLookupError(LookupBucket(old(store), forbidden, b)))
             else if EncodeForSave(codecs, path, content, format).Err? then Err(EncodeForSave(codecs, path, content, format).error)
             else if b !in old(store) then Err(NotFound)
             else Ok(())
      ensures var b, k := ParsePath(path).0, ParsePath(path).1;
        r.Ok? ==> store == old(store)[b := old(store)[b][k := Blob(EncodeForSave(codecs, path, content, format).value,
                                                                   Some(UploadDefaultMime), old(clock))]]
      ensures r.Err? ==> store == old(store) && clock == old(clock)
    {
      var b, k := ParsePath(path).0, ParsePath(path).1;
      var h := GetBucket(b, true);
      if h.Err? {
        return Err(h.error);
      }
      var bytes := EncodeForSave(codecs, path, content, format);
      if bytes.Err? {
        return Err(bytes.error);
      }
      r := Upload(b, k, bytes.value, UploadDefaultMime);
    }

    /** _save_notebook: the document is written as JSON text, which the upload encodes as
        UTF-8 (a text that cannot be encoded raises), with the notebook content type. */
    method SaveNotebook(path: string, doc: string) returns (r: Result<()>)
      requires Valid()
      modifies this`cache, this`store, this`clock
      ensures Valid()
      ensures CacheStep(old(cache), cache, old(store), old(store))
      ensures var b, k := ParsePath(path).0, ParsePath(path).1;
        r == if !old(HasHandle(b)) then Err(ThrownLookupError(LookupBucket(old(store), forbidden, b)))
             else if codecs.utf8Encode(codecs.notebookWrite(doc)).None? then Err(Crash)
             else if b !in old(store) then Err(NotFound)
             else Ok(())
      ensures var b, k := ParsePath(path).0, ParsePath(path).1;
        r.Ok? ==> store == old(store)[b := old(store)[b][k := Blob(codecs.utf8Encode(codecs.notebookWrite(doc)).value,
                                                                   Some(NotebookMime), old(clock))]]
      ensures r.Err? ==> store == old(store) && clock == old(clock)
    {
      var b, k := ParsePath(path).0, ParsePath(path).1;
      var h := GetBucket(b, true);
      if h.Err? {
        return Err(h.error);
      }
      var bytes := codecs.utf8Encode(codecs.notebookWrite(doc));
      if bytes.None? {
        return Err(Crash);
      }
      r := Upload(b, k, bytes.value, NotebookMime);
    }

    /** What _save_directory answers and leaves in the store for a directory path: the root
        and a directory that exists (or a refused bucket, which "exists") are left alone; a
        missing bucket is created at its root and is NotFound below it (BadRequest for a name
        that is not a bucket name); a missing directory in a bucket gets its marker. */
    ghost function DirectorySaved(before: Store, path: string, stamp: int): (Result<()>, Store)
    {
      var b, k := ParsePath(path).0, ParsePath(path).1;
      if path == "" || (b in before && (b in forbidden || DirPresent(before[b], k))) then (Ok(()), before)
      else if b !in before && !ValidBucketName(b) then (Err(BadRequest), before)
      else if b !in before && k == "" then (Ok(()), before[b := map[]])
      else if b !in before then (Err(NotFound), before)
      else (Ok(()), before[b := before[b][k + "/" := Blob([], Some(DirectoryMime), stamp)]])
    }

    /** _save_directory on a directory path (save has appended its "/"). A directory that
        exists is left alone, a Blob being refused with 400. At the root of a bucket the
        bucket is created; below it, an empty marker blob with the directory content type is
        uploaded at the key with one more "/". */
    method SaveDirectory(path: string) returns (r: Result<()>)
      requires Valid()
      requires IsDirKey(ParsePath(path).1)
      modifies this`cache, this`store, this`clock
      ensures Valid()
      ensures CacheStep(old(cache), cache, old(store), old(store)) && old(store).Keys <= store.Keys
      ensures path == "" ==> r == Ok(()) && store == old(store)
      ensures var b, k := ParsePath(path).0, ParsePath(path).1;
        path != "" && b in old(store) && (b in forbidden || DirPresent(old(store)[b], k)) ==>
        r == Ok(()) && store == old(store) && clock == old(clock)
      ensures var b, k := ParsePath(path).0, ParsePath(path).1;
        path != "" && k == "" && b !in old(store) ==>
        r == (if ValidBucketName(b) then Ok(()) else Err(BadRequest))
        && store == (if ValidBucketName(b) then old(store)[b := map[]] else old(store))
      ensures var b, k := ParsePath(path).0, ParsePath(path).1;
        k != "" && b in old(store) && b !in forbidden && !DirPresent(old(store)[b], k) ==>
        r == Ok(()) && store == old(store)[b := old(store)[b][k + "/" := Blob([], Some(DirectoryMime), old(clock))]]
      ensures var b, k := ParsePath(path).0, ParsePath(path).1;
        k != "" && b !in old(store) ==>
        store == old(store) && r == (if ValidBucketName(b) then Err(NotFound) else Err(BadRequest))
      ensures var b, k := ParsePath(path).0, ParsePath(path).1;
        r.Ok? && path != "" ==> b in store && (b in forbidden || DirPresent(store[b], k))
      ensures (r, store) == DirectorySaved(old(store), path, old(clock))
    {
      var f := Fetch(path, true);
      if f.Err? {
        return Err(f.error);
      }
      if f.value.found {
        if f.value.payload.BlobHit? {
          return Err(Http(400, path));
        }
        return Ok(());
      }
      var b, k := ParsePath(path).0, ParsePath(path).1;
      if k == "" {
        // client.create_bucket
        if !ValidBucketName(b) {
          return Err(BadRequest);
        }
        store := store[b := map[]];
        return Ok(());
      }
      var h := GetBucket(b, true);
      if h.Err? {
        return Err(h.error);
      }
      r := Upload(b, k + "/", [], DirectoryMime);
      if r.Ok? {
        MarkerMakesPresent(store[b], k);
      }
    }

    /** save. The model is checked before anything is written: 400 without a type, 400
        without content for anything but a directory, 403 for anything but a directory at a
        bucket root. A directory below a root gets "/" appended. The content is then saved
        by its type (a notebook also gets a first checkpoint when it has none); an error
        that is not an HTTP error becomes a 500. The answer is `get` of the path without
        content. */
    method Save(model: SaveModel, path: string, checkpointId: string) returns (r: Result<ContentModel>)
      requires Valid()
      modifies this`cache, this`store, this`clock
      ensures Valid()
      ensures CacheStep(old(cache), cache, store, old(store)) && old(store).Keys <= store.Keys
      ensures SaveRefusal(model, path).Some? ==>
        r == Err(SaveRefusal(model, path).value) && store == old(store) && cache == old(cache) && clock == old(clock)
      ensures r.Ok? ==> SaveRefusal(model, path) == None
      ensures r.Ok? ==> r.value.path == RequestPath(PathArg(SavePath(model.kind, path)), None) && r.value.content == NoContent
      ensures var p := SavePath(model.kind, path); var b, k := ParsePath(p).0, ParsePath(p).1;
        SaveRefusal(model, path) == None && model.kind == Some("file") ==>
        FileSaveOutcome(old(store), store, b, k, EncodeForSave(codecs, p, model.content.value, model.format),
                        old(clock), old(HasHandle(b)))
      ensures var p := SavePath(model.kind, path); var b, k := ParsePath(p).0, ParsePath(p).1;
        SaveRefusal(model, path) == None && model.kind == Some("directory") && p != "" && b in old(store) && (b in forbidden || DirPresent(old(store)[b], k)) ==>
        store == old(store)
      ensures model.kind == Some("notebook") && r.Ok? && '/' !in checkpointId && '/' !in checkpoints.checkpointBucket ==>
        CheckpointListed(store, checkpoints.CpPath(None, SavePath(model.kind, path)))
      ensures r.Err? ==> r.error.Http?
      ensures SaveRefusal(model, path) == None && model.kind == Some("directory") ==>
        store == DirectorySaved(old(store), SavePath(model.kind, path), old(clock)).1 && (r.Ok? <==> DirectorySaved(old(store), SavePath(model.kind, path), old(clock)).0.Ok?)
      ensures var b := ParsePath(SavePath(model.kind, path)).0;
        SaveRefusal(model, path) == None && model.kind == Some("file") ==>
        (r.Ok? <==> old(HasHandle(b)) && b in old(store) && EncodeForSave(codecs, SavePath(model.kind, path), model.content.value, model.format).Ok?)
      ensures model.kind == Some("notebook") && r.Ok? ==>
        var b, k := ParsePath(SavePath(model.kind, path)).0, ParsePath(SavePath(model.kind, path)).1;
        var cp := checkpoints.CpPath(Some(checkpointId), SavePath(model.kind, path));
        var bytes := codecs.utf8Encode(codecs.notebookWrite(model.content.value));
        old(HasHandle(b)) && b in old(store) && bytes.Some? &&
        NotebookSaveOutcome(old(store), store, b, k, bytes.value, old(clock), ParsePath(cp).0, ParsePath(cp).1)
    {
      var refusal := SaveRefusal(model, path);
      if refusal.Some? {
        return Err(refusal.value);
      }
      var p := SavePath(model.kind, path);
      if model.kind == Some("directory") {
        SavePathKey(model.kind, path);
      }
      r := SaveAccepted(model, p, checkpointId);
    }

    /** save after its checks: the dispatch, the wrapping of its errors and the final
        `get`. */
    method SaveAccepted(model: SaveModel, p: string, checkpointId: string) returns (r: Result<ContentModel>)
      requires Valid()
      requires model.kind.Some? && (model.content.Some? || model.kind == Some("directory"))
      requires model.kind == Some("directory") ==> IsDirKey(ParsePath(p).1)
      modifies this`cache, this`store, this`clock
      ensures Valid()
      ensures CacheStep(old(cache), cache, store, old(store)) && old(store).Keys <= store.Keys
      ensures r.Ok? ==> r.value.path == RequestPath(PathArg(p), None) && r.value.content == NoContent
      ensures var b, k := ParsePath(p).0, ParsePath(p).1;
        model.kind == Some("file") ==>
        FileSaveOutcome(old(store), store, b, k, EncodeForSave(codecs, p, model.content.value, model.format),
                        old(clock), old(HasHandle(b)))
      ensures var b, k := ParsePath(p).0, ParsePath(p).1;
        model.kind == Some("directory") && p != "" && b in old(store) && (b in forbidden || DirPresent(old(store)[b], k)) ==>
        store == old(store)
      ensures model.kind == Some("notebook") && r.Ok? && '/' !in checkpointId && '/' !in checkpoints.checkpointBucket ==>
        CheckpointListed(store, checkpoints.CpPath(None, p))
      ensures r.Err? ==> r.error.Http?
      ensures model.kind == Some("directory") ==>
        store == DirectorySaved(old(store), p, old(clock)).1 && (r.Ok? <==> DirectorySaved(old(store), p, old(clock)).0.Ok?)
      ensures var b := ParsePath(p).0;
        model.kind == Some("file") ==>
        (r.Ok? <==> old(HasHandle(b)) && b in old(store) && EncodeForSave(codecs, p, model.content.value, model.format).Ok?)
      ensures model.kind == Some("notebook") && r.Ok? ==>
        var b, k := ParsePath(p).0, ParsePath(p).1;
        var cp := checkpoints.CpPath(Some(checkpointId), p);
        var bytes := codecs.utf8Encode(codecs.notebookWrite(model.content.value));
        old(HasHandle(b)) && b in old(store) && bytes.Some? &&
        NotebookSaveOutcome(old(store), store, b, k, bytes.value, old(clock), ParsePath(cp).0, ParsePath(cp).1)
    {
      var d := SaveContent(model, p, checkpointId);
      if d.Err? {
        return Err(WrapSaveError(d.error, p));
      }
      ghost var cache1 := cache;
      r := GetEntry(PathArg(p));
      CacheStepGrow(old(cache), cache1, cache, old(store), store);
      UntypedRequestPath(PathArg(p));
    }

    /** save's dispatch on the type of an accepted model. */
    method SaveContent(model: SaveModel, p: string, checkpointId: string) returns (r: Result<()>)
      requires Valid()
      requires model.kind.Some? && (model.content.Some? || model.kind == Some("directory"))
      requires model.kind == Some("directory") ==> IsDirKey(ParsePath(p).1)
      modifies this`cache, this`store, this`clock
      ensures Valid()
      ensures CacheStep(old(cache), cache, old(store), old(store)) && old(store).Keys <= store.Keys
      ensures var b, k := ParsePath(p).0, ParsePath(p).1;
        model.kind == Some("file") ==>
        FileSaveOutcome(old(store), store, b, k, EncodeForSave(codecs, p, model.content.value, model.format),
                        old(clock), old(HasHandle(b)))
      ensures var b, k := ParsePath(p).0, ParsePath(p).1;
        model.kind == Some("directory") && p != "" && b in old(store) && (b in forbidden || DirPresent(old(store)[b], k)) ==>
        store == old(store)
      ensures model.kind !in {Some("notebook"), Some("file"), Some("directory")} ==>
        r == Err(Http(0, "")) && store == old(store)
      ensures model.kind == Some("notebook") && r.Ok? && '/' !in checkpointId && '/' !in checkpoints.checkpointBucket ==>
        CheckpointListed(store, checkpoints.CpPath(None, p))
      ensures model.kind == Some("directory") ==> (r, store) == DirectorySaved(old(store), p, old(clock))
      ensures var b := ParsePath(p).0;
        model.kind == Some("file") ==>
        (r.Ok? <==> old(HasHandle(b)) && b in old(store) && EncodeForSave(codecs, p, model.content.value, model.format).Ok?)
      ensures model.kind == Some("notebook") && r.Ok? ==>
        var b, k := ParsePath(p).0, ParsePath(p).1;
        var cp := checkpoints.CpPath(Some(checkpointId), p);
        var bytes := codecs.utf8Encode(codecs.notebookWrite(model.content.value));
        old(HasHandle(b)) && b in old(store) && bytes.Some? &&
        NotebookSaveOutcome(old(store), store, b, k, bytes.value, old(clock), ParsePath(cp).0, ParsePath(cp).1)
      ensures r.Ok? ==> EntryShown(PathArg(p))
    {
      match model.kind.value
      case "notebook" =>
        r := SaveNotebookChecked(p, model.content.value, checkpointId);
        if r.Ok? {
          var cp := checkpoints.CpPath(Some(checkpointId), p);
          NotebookSaveKeeps(old(store), store, ParsePath(p).0, ParsePath(p).1,
                            codecs.utf8Encode(codecs.notebookWrite(model.content.value)).value, old(clock),
                            ParsePath(cp).0, ParsePath(cp).1);
          StoredBlobShown(p);
        }
      case "file" =>
        r := SaveFile(p, model.content.value, model.format);
        if r.Ok? {
          StoredBlobShown(p);
        }
      case "directory" =>
        r := SaveDirectory(p);
        if r.Ok? {
          PresentDirectoryShown(p);
        }
      case _ =>
        r := Err(Http(0, ""));
    }

    /** save's notebook branch: the notebook is saved, and when list_checkpoints finds no
        checkpoint of it, one is created. */
    method SaveNotebookChecked(p: string, doc: string, checkpointId: string) returns (r: Result<()>)
      requires Valid()
      modifies this`cache, this`store, this`clock
      ensures Valid()
      ensures CacheStep(old(cache), cache, old(store), old(store)) && old(store).Keys <= store.Keys
      ensures var b, k := ParsePath(p).0, ParsePath(p).1;
        r.Ok? ==> old(HasHandle(b)) && b in old(store) && codecs.utf8Encode(codecs.notebookWrite(doc)).Some?
      ensures var b, k := ParsePath(p).0, ParsePath(p).1;
        var cp := checkpoints.CpPath(Some(checkpointId), p);
        r.Ok? ==> NotebookSaveOutcome(old(store), store, b, k, codecs.utf8Encode(codecs.notebookWrite(doc)).value,
                                      old(clock), ParsePath(cp).0, ParsePath(cp).1)
      ensures r.Ok? && '/' !in checkpointId && '/' !in checkpoints.checkpointBucket ==>
        CheckpointListed(store, checkpoints.CpPath(None, p))
    {
      var saved := SaveNotebook(p, doc);
      if saved.Err? {
        return Err(saved.error);
      }
      ghost var cache1, store1 := cache, store;
      assert store1.Keys == old(store).Keys;
      var existing := checkpoints.ListCheckpoints(p);
      if existing.Err? {
        CacheStepTrans(old(cache), cache1, cache, old(store), old(store), old(store));
        return Err(existing.error);
      }
      if existing.value != [] {
        CacheStepTrans(old(cache), cache1, cache, old(store), old(store), old(store));
        ghost var cpb := ParsePath(checkpoints.CpPath(None, p)).0;
        assert cpb in store;
        return Ok(());
      }
      ghost var cache2 := cache;
      var created := checkpoints.CreateCheckpoint(p, checkpointId);
      CacheStepTrans(old(cache), cache1, cache2, old(store), old(store), old(store));
      CacheStepTrans(old(cache), cache2, cache, old(store), store1, store1);
      if created.Err? {
        return Err(created.error);
      }
      var cp := checkpoints.CpPath(Some(checkpointId), p);
      OnlyBlobWrittenKeys(store1, store, ParsePath(cp).0, ParsePath(cp).1);
      if '/' !in checkpointId && '/' !in checkpoints.checkpointBucket {
        CheckpointIsListed(checkpointId, p, checkpoints.checkpointDir, checkpoints.checkpointBucket,
                           store[ParsePath(cp).0]);
      }
      return Ok(());
    }

    /** The termination measure of delete_file: the prefixes, longer than the key, of the
        keys in the path's bucket. */
    ghost function DeleteMeasure(path: string): nat
      reads this`store
    {
      var b, k := ParsePath(StripLeadingSlash(path)).0, ParsePath(StripLeadingSlash(path)).1;
      if b in store then |LongerPrefixes(store[b], |k|)| else 0
    }

    /** delete_file. The bucket is looked up with `throw` set. At a bucket root the bucket
        itself is deleted (NotFound when it is gone, Conflict when it holds blobs), and then
        its cache entry, which does not exist with caching off. Below the root, the direct
        objects of the one-level listing of the key are deleted, and each folder, a full
        prefix, is deleted by a recursive call on the path with "/" and the folder appended.
        Only blobs of that bucket whose key starts with the key are ever deleted. */
    method DeleteFile(path: string) returns (r: Result<()>)
      requires Valid()
      modifies this`cache, this`store
      decreases DeleteMeasure(path), 1
      ensures Valid()
      ensures CacheStep(old(cache), cache, old(store), store) && store.Keys <= old(store).Keys
      ensures var b := ParsePath(StripLeadingSlash(path)).0; store - {b} == old(store) - {b}
      ensures var b := ParsePath(StripLeadingSlash(path)).0; !old(HasHandle(b)) ==>
        store == old(store) && cache == old(cache) && r.Err?
      ensures var b, k := ParsePath(StripLeadingSlash(path)).0, ParsePath(StripLeadingSlash(path)).1;
        k == "" && old(HasHandle(b)) ==>
        r == (if b !in old(store) then Err(NotFound)
              else if old(store)[b] != map[] then Err(Conflict)
              else if cacheBuckets then Ok(())
              else Err(Crash))
      ensures var b, k := ParsePath(StripLeadingSlash(path)).0, ParsePath(StripLeadingSlash(path)).1;
        k == "" && old(HasHandle(b)) ==>
        if b in old(store) && old(store)[b] == map[] then store == old(store) - {b} && cache == old(cache) - {b}
        else store == old(store)
      ensures var b, k := ParsePath(StripLeadingSlash(path)).0, ParsePath(StripLeadingSlash(path)).1;
        k != "" ==> (b in store <==> b in old(store))
      ensures var b, k := ParsePath(StripLeadingSlash(path)).0, ParsePath(StripLeadingSlash(path)).1;
        k != "" && b in old(store) ==> DeletedUnder(old(store)[b], store[b], k)
      ensures var b, k := ParsePath(StripLeadingSlash(path)).0, ParsePath(StripLeadingSlash(path)).1;
        k != "" && r.Ok? ==> b in old(store) && DirectObjects(old(store)[b], k) !! store[b].Keys
      ensures var b, k := ParsePath(StripLeadingSlash(path)).0, ParsePath(StripLeadingSlash(path)).1;
        k != "" ==> (r.Ok? <==> old(HasHandle(b)) && b in old(store))
      ensures var b, k := ParsePath(StripLeadingSlash(path)).0, ParsePath(StripLeadingSlash(path)).1;
        k != "" && b in old(store) && NothingUnder(old(store)[b], k) ==> store == old(store)
      ensures var b, k := ParsePath(StripLeadingSlash(path)).0, ParsePath(StripLeadingSlash(path)).1;
        k != "" && b in old(store) && old(HasHandle(b)) && RecursionFindsNothing(old(store)[b], k) ==>
        store[b] == old(store)[b] - DirectObjects(old(store)[b], k)
    {
      var p := StripLeadingSlash(path);
      var b, k := ParsePath(p).0, ParsePath(p).1;
      var h := GetBucket(b, true);
      if h.Err? {
        return Err(h.error);
      }
      if b !in store {
        // bucket.delete() or list_blobs on a handle whose bucket is gone
        return Err(NotFound);
      }
      if k == "" {
        if store[b] != map[] {
          return Err(Conflict);
        }
        store := store - {b};
        if !cacheBuckets {
          return Err(Crash);
        }
        assert cache - {b} == old(cache) - {b} by {
          if cache != old(cache) {
            assert cache == old(cache)[b := BucketHandle(b)];
          }
        }
        cache := cache - {b};
        return Ok(());
      }
      DeleteBelow(p, b, k);
      r := Ok(());
    }

    /** delete_file below a bucket root, once the bucket is had: delete the direct objects
        of the key's one-level listing, then recurse on "<path>/<folder>" for each listed
        folder. Each recursive call is on the same bucket, so none of them fails. When
        nothing is under the key nothing changes, and when the recursion finds nothing under
        any of the keys it visits exactly the direct objects go. */
    method DeleteBelow(p: string, b: string, k: string)
      requires Valid()
      requires b in store && b !in forbidden && k != "" && '/' !in b && p == b + "/" + k
      modifies this`cache, this`store
      decreases |LongerPrefixes(store[b], |k|)|, 0
      ensures Valid()
      ensures CacheStep(old(cache), cache, old(store), store) && store.Keys <= old(store).Keys
      ensures store - {b} == old(store) - {b}
      ensures b in store && DeletedUnder(old(store)[b], store[b], k)
      ensures DirectObjects(old(store)[b], k) !! store[b].Keys
      ensures NothingUnder(old(store)[b], k) ==> store == old(store)
      ensures RecursionFindsNothing(old(store)[b], k) ==> store[b] == old(store)[b] - DirectObjects(old(store)[b], k)
    {
      var listed := store[b];
      var files := DirectObjects(listed, k);
      var folders := Folders(listed, k);
      store := store[b := listed - files];
      assert ValidBucketName(b) && b[0] != '/';
      var todo := folders;
      while todo != {}
        invariant Valid()
        invariant todo <= folders
        invariant b in store && store.Keys <= old(store).Keys
        invariant store - {b} == old(store) - {b}
        invariant DeletedUnder(listed, store[b], k)
        invariant files !! store[b].Keys
        invariant CacheStep(old(cache), cache, old(store), store)
        invariant RecursionFindsNothing(listed, k) ==> store[b] == listed - files
        decreases todo
      {
        var f :| f in todo;
        todo := todo - {f};
        FolderShape(listed, k, f);
        ChildPathAsWritten(p, b, k, f);
        LongerPrefixesShrink(listed, store[b], k, AsDirectory(k) + f, f + "/");
        ghost var cache1, store1 := cache, store;
        if RecursionFindsNothing(listed, k) {
          NothingUnderFewer(listed, store1[b], AsDirectory(k) + f);
        }
        var sub := DeleteFile(RecursionPathAsWritten(p, f));
        assert sub.Ok?;
        DeletedUnderTrans(listed, store1[b], store[b], k, AsDirectory(k) + f);
        CacheStepTrans(old(cache), cache1, cache, old(store), store1, store);
      }
      if NothingUnder(listed, k) {
        NothingDeleted(old(store), store, b, k);
      }
    }

    /** The evidently intended delete_file below a bucket root: the entry itself and the
        whole tree under it, and nothing else. */
    method RemoveEntry(b: string, k: string)
      requires Valid() && b in store && k != ""
      modifies this`store
      ensures Valid()
      ensures store == old(store)[b := Pruned(old(store)[b], AsDirectory(k)) - {k}]
    {
      ghost var bucket := store[b];
      store := store[b := store[b] - {k}];
      RemoveTree(b, AsDirectory(k));
      PrunedWithout(bucket, AsDirectory(k), k);
    }

    /** The recursion with each folder's own subtree: delete the direct objects of the
        listing of the directory key, then recurse on each folder followed by "/". */
    method RemoveTree(b: string, d: string)
      requires Valid() && b in store
      modifies this`store
      decreases |LongerPrefixes(store[b], |d|)|
      ensures Valid()
      ensures store == old(store)[b := Pruned(old(store)[b], d)]
    {
      var listed := store[b];
      var files := DirectObjects(listed, d);
      var folders := Folders(listed, d);
      store := store[b := listed - files];
      UpdateElsewhere(old(store), store, b, listed - files);
      GroupedAfterFiles(listed, d);
      var todo := folders;
      while todo != {}
        invariant Valid()
        invariant todo <= folders
        invariant b in store && store - {b} == old(store) - {b}
        invariant DeletedUnder(listed, store[b], d)
        invariant GroupedInto(store[b], d, todo)
        decreases todo
      {
        var f :| f in todo;
        todo := todo - {f};
        FolderKeyLonger(d, f);
        assert |LongerPrefixes(store[b], |f + "/"|)| < |LongerPrefixes(listed, |d|)| by {
          FolderShape(listed, d, f);
          LongerPrefixesShrink(listed, store[b], d, f + "/", f + "/");
        }
        ghost var before, store1 := store[b], store;
        RemoveTree(b, f + "/");
        UpdateElsewhere(store1, store, b, Pruned(before, f + "/"));
        assert DeletedUnder(listed, store[b], d) && GroupedInto(store[b], d, todo) by {
          PrunedShape(before, f + "/");
          DeletedUnderTrans(listed, before, store[b], d, f + "/");
          GroupedAfterFolder(before, store[b], d, todo + {f}, f);
        }
      }
      GroupedIntoNone(store[b], d);
      PrunedExactly(listed, store[b], d);
      OnlyOneBucket(old(store), store, b);
    }

    /** delete_file on the path "<bucket>/<key>" below the root of a stored bucket that is
        not refused, when the as-written recursion finds nothing under any key it visits:
        the call succeeds and removes exactly the direct objects of the key's listing. */
    method DeleteListedOnly(b: string, k: string) returns (r: Result<()>)
      requires Valid() && b in store && b !in forbidden && k != ""
      requires RecursionFindsNothing(store[b], k)
      modifies this`cache, this`store
      ensures Valid()
      ensures r == Ok(())
      ensures store == old(store)[b := old(store)[b] - DirectObjects(old(store)[b], k)]
    {
      ValidNameShape(b);
      PlainPath(b, k);
      HandleOfStored(b);
      r := DeleteFile(b + "/" + k);
      assert r.Ok? && r.value == ();
      OnlyOneBucket(old(store), store, b);
    }

    /** The first finding through delete_file itself: in a bucket whose only blob is
        "dir/sub/x", deleting the directory "bkt/dir/" reports success and leaves the blob,
        because the recursion looks under "dir/dir/sub". */
    method DeleteNestedAsWritten() returns (r: Result<()>)
      requires Valid() && store == map["bkt" := NestedBucket()] && "bkt" !in forbidden
      modifies this`cache, this`store
      ensures r == Ok(()) && store == map["bkt" := NestedBucket()]
    {
      NestedRecursionFindsNothing();
      r := DeleteListedOnly("bkt", "dir/");
    }

    /** The second finding through delete_file itself: deleting the directory "bkt/dir"
        (no trailing "/") beside a file "dir.txt" reports success, removes the file, and
        leaves the directory's own blob "dir/x", because the recursion looks under
        "dir/dir". */
    method DeleteSiblingAsWritten() returns (r: Result<()>)
      requires Valid() && store == map["bkt" := SiblingBucket()] && "bkt" !in forbidden
      modifies this`cache, this`store
      ensures r == Ok(()) && store == map["bkt" := map["dir/x" := Blob([], None, 0)]]
    {
      SiblingListing();
      r := DeleteListedOnly("bkt", "dir");
    }
  }

  /** The as-written recursion of delete_file finds nothing: for each folder listed under
      the key, nothing is under the key it recurses on. */
  ghost predicate RecursionFindsNothing(bucket: Bucket, k: string) {
    forall f :: f in Folders(bucket, k) ==> NothingUnder(bucket, AsDirectory(k) + f)
  }

  /** Removing keys keeps a prefix empty. */
  lemma NothingUnderFewer(big: Bucket, small: Bucket, prefix: string)
    requires small.Keys <= big.Keys && NothingUnder(big, prefix)
    ensures NothingUnder(small, prefix)
  {
  }

  /** A delete that removes at most the direct objects of an empty listing, in one bucket,
      changes nothing. */
  lemma NothingDeleted(before: Store, after: Store, b: string, k: string)
    requires b in before && b in after && after - {b} == before - {b} && NothingUnder(before[b], k)
    requires RecursionFindsNothing(before[b], k) ==> after[b] == before[b] - DirectObjects(before[b], k)
    ensures after == before
  {
    NothingListed(before[b], k);
    assert after[b] == before[b];
    OnlyOneBucket(before, after, b);
  }

  /** A listing of a prefix with nothing under it is empty. */
  lemma NothingListed(bucket: Bucket, prefix: string)
    requires NothingUnder(bucket, prefix)
    ensures DirectObjects(bucket, prefix) == {} && Folders(bucket, prefix) == {}
  {
  }

  /** For a directory key, the listing _fetch makes decides existence exactly as
      DirPresent does: a marker blob is itself a direct object of its listing, and there are
      folders exactly when there are sub-prefixes. */
  lemma ListingShowsDirectory(bucket: Bucket, key: string)
    requires IsDirKey(key)
    ensures DirPresent(bucket, key) <==>
      DirectObjects(bucket, key) != {} || Folders(bucket, key) != {} || key == ""
  {
    if key != "" && key in bucket {
      MarkerIsListed(bucket, key);
    }
    if SubPrefixes(bucket, key) != {} {
      var p :| p in SubPrefixes(bucket, key);
      var k :| k in bucket && StartsWith(k, key) && '/' in k[|key|..] && p == SubPrefix(k, key);
      assert Folder(k, key) in Folders(bucket, key);
    }
    if Folders(bucket, key) != {} {
      var f :| f in Folders(bucket, key);
      FolderShape(bucket, key, f);
    }
  }

  /** A key in the bucket under a prefix makes the prefix a present directory key. */
  lemma PresentUnder(bucket: Bucket, key: string, p: string)
    requires key in bucket && StartsWith(key, p)
    ensures DirPresent(bucket, p)
  {
    if key != p {
      if '/' in key[|p|..] {
        assert SubPrefix(key, p) in SubPrefixes(bucket, p);
      } else {
        assert key in DirectObjects(bucket, p);
      }
    }
  }

  /** A bucket name is not empty, holds no "/" and does not start with one. */
  lemma ValidNameShape(name: string)
    requires ValidBucketName(name)
    ensures name != "" && '/' !in name && name[0] != '/'
  {
    forall i | 0 <= i < |name|
      ensures name[i] != '/'
    {
      assert BucketNameChar(name[i]);
    }
  }

  /** A path in directory form: "/" appended unless already there (dir_exists, and
      delete_file before it recurses). */
  function AsDirectory(path: string): string {
    if EndsWith(path, "/") then path else path + "/"
  }

  /** The key of a path ending in "/" is a directory key. */
  lemma DirectoryKey(path: string)
    requires EndsWith(path, "/")
    ensures IsDirKey(ParsePath(path).1)
  {
    var b, k := ParsePath(path).0, ParsePath(path).1;
    if '/' in path && k != "" {
      ParsePathSplit(path);
      assert path == b + "/" + k;
      assert path[|path| - 1] == k[|k| - 1];
    }
  }

  /** A path `get` does not treat as a directory names a file key: not empty and not
      ending in "/". */
  lemma FileKeyShape(path: string)
    requires '/' in path && !EndsWith(path, "/")
    ensures !IsDirKey(ParsePath(path).1)
  {
    var b, k := ParsePath(path).0, ParsePath(path).1;
    ParsePathSplit(path);
    assert path == b + "/" + k;
    if k != "" {
      assert path[|path| - 1] == k[|k| - 1];
    }
  }

  /** The path delete_file recurses on for a listed folder, as written: the folder, which is a
      full prefix from the bucket root, appended to the path being deleted. */
  function RecursionPathAsWritten(path: string, folder: string): string {
    AsDirectory(path) + folder
  }

  /** The as-written recursion path stays in the bucket, and its key extends the key being
      deleted past the folder. */
  lemma ChildPathAsWritten(p: string, b: string, k: string, f: string)
    requires p == b + "/" + k && '/' !in b && b != [] && b[0] != '/'
    requires k != "" && StartsWith(f, k)
    ensures StripLeadingSlash(RecursionPathAsWritten(p, f)) == RecursionPathAsWritten(p, f)
    ensures ParsePath(RecursionPathAsWritten(p, f)) == (b, AsDirectory(k) + f)
    ensures StartsWith(AsDirectory(k) + f, k)
    ensures |f| < |AsDirectory(k) + f| && |k| < |AsDirectory(k) + f|
  {
    var key := AsDirectory(k) + f;
    AsDirectoryOfJoin(b, k);
    assert RecursionPathAsWritten(p, f) == b + "/" + key;
    ParsePathJoin(b, key);
    assert (b + "/" + key)[0] == b[0];
    assert key[..|k|] == AsDirectory(k)[..|k|];
  }

  /** Appending "/" to a bucket path appends it to the key. */
  lemma AsDirectoryOfJoin(b: string, k: string)
    requires k != ""
    ensures forall f :: AsDirectory(b + "/" + k) + f == b + "/" + (AsDirectory(k) + f)
  {
    var p := b + "/" + k;
    assert p[|p| - 1] == k[|k| - 1];
  }

  /** As written, the recursion misses nested folders: deleting "bkt/dir/" when the only
      blob is "dir/sub/x" deletes no direct object, lists the folder "dir/sub" and recurses on
      "bkt/dir/dir/sub", under whose key no blob lies, so "dir/sub/x" survives. Removing the
      tree under "dir/" leaves nothing. */
  lemma NestedFolderSurvives()
    ensures DirectObjects(NestedBucket(), "dir/") == {}
    ensures Folders(NestedBucket(), "dir/") == {"dir/sub"}
    ensures ParsePath(RecursionPathAsWritten("bkt/dir/", "dir/sub")) == ("bkt", "dir/dir/sub")
    ensures NothingUnder(NestedBucket(), "dir/dir/sub")
    ensures Pruned(NestedBucket(), "dir/") == map[]
  {
    NestedFolderListed();
    AsWrittenChildOfDir();
    NestedKeyPrefixes();
  }

  /** A bucket holding one blob, two directories deep. */
  function NestedBucket(): Bucket {
    map["dir/sub/x" := Blob([], None, 0)]
  }

  lemma NestedKeyPrefixes()
    ensures NothingUnder(NestedBucket(), "dir/dir/sub")
    ensures Pruned(NestedBucket(), "dir/") == map[]
  {
    var key := "dir/sub/x";
    assert NestedBucket().Keys == {key};
    assert key[..|"dir/"|] == "dir/";
  }

  lemma NestedFolderListed()
    ensures DirectObjects(NestedBucket(), "dir/") == {}
    ensures Folders(NestedBucket(), "dir/") == {"dir/sub"}
  {
    NestedKeyFolder();
    assert NestedBucket().Keys == {"dir/sub/x"};
  }

  lemma NestedKeyFolder()
    ensures StartsWith("dir/sub/x", "dir/") && '/' in "dir/sub/x"[4..]
    ensures Folder("dir/sub/x", "dir/") == "dir/sub"
  {
    var key := "dir/sub/x";
    assert key[..4] == "dir/" && key[4..] == "sub/x" && '/' in key[4..];
    assert SubPrefix(key, "dir/") == "dir/sub/" by {
      assert Find("sub/x", '/') == 3;
    }
  }

  lemma AsWrittenChildOfDir()
    ensures ParsePath(RecursionPathAsWritten("bkt/dir/", "dir/sub")) == ("bkt", "dir/dir/sub")
  {
    assert AsDirectory("bkt/dir/") == "bkt/dir/" by {
      assert "bkt/dir/"[|"bkt/dir/"| - 1..] == "/";
    }
    assert "bkt/dir/" + "dir/sub" == "bkt" + "/" + "dir/dir/sub";
    ParsePathJoin("bkt", "dir/dir/sub");
  }

  /** A path "bucket/key" with a non-empty bucket has no leading "/" and splits back into
      its two parts. */
  lemma PlainPath(b: string, k: string)
    requires b != "" && '/' !in b
    ensures StripLeadingSlash(b + "/" + k) == b + "/" + k
    ensures ParsePath(b + "/" + k) == (b, k)
  {
    assert (b + "/" + k)[0] == b[0];
    ParsePathJoin(b, k);
  }

  /** The as-written recursion of the first finding finds nothing: its one folder "dir/sub"
      is looked for under "dir/dir/sub". */
  lemma NestedRecursionFindsNothing()
    ensures RecursionFindsNothing(NestedBucket(), "dir/")
    ensures NestedBucket() - DirectObjects(NestedBucket(), "dir/") == NestedBucket()
  {
    NestedFolderListed();
    NestedKeyPrefixes();
    assert AsDirectory("dir/") + "dir/sub" == "dir/dir/sub" by {
      assert EndsWith("dir/", "/") by {
        assert "dir/"[3..] == "/";
      }
    }
  }

  /** The listing of "dir" beside "dir.txt": the file is a direct object, "dir" is the one
      folder, the as-written recursion on "dir/dir" finds nothing, and removing the file
      leaves the directory's blob. */
  lemma SiblingListing()
    ensures DirectObjects(SiblingBucket(), "dir") == {"dir.txt"}
    ensures Folders(SiblingBucket(), "dir") == {"dir"}
    ensures RecursionFindsNothing(SiblingBucket(), "dir")
    ensures SiblingBucket() - DirectObjects(SiblingBucket(), "dir") == map["dir/x" := Blob([], None, 0)]
  {
    var a, c := "dir.txt", "dir/x";
    assert SiblingBucket().Keys == {a, c};
    assert a[..3] == "dir" && a[3..] == ".txt" && '/' !in a[3..];
    assert c[..3] == "dir" && c[3..] == "/x" && '/' in c[3..];
    assert SubPrefix(c, "dir") == "dir/" by {
      assert Find("/x", '/') == 0;
    }
    assert Folder(c, "dir") == "dir";
    assert AsDirectory("dir") + "dir" == "dir/dir" by {
      assert "dir"[2..] != "/";
    }
    assert !StartsWith(a, "dir/dir") by {
      assert a[3] != '/';
    }
  }

  /** A bucket with a directory "dir" and a file "dir.txt" beside it. */
  function SiblingBucket(): Bucket {
    map["dir.txt" := Blob([], None, 0), "dir/x" := Blob([], None, 0)]
  }

  /** As written, deleting the directory "dir" (the path Jupyter passes has no trailing "/")
      lists the prefix "dir", whose direct objects include the sibling file "dir.txt", so a
      successful delete_file removes it; removing the entry "dir" and the tree under "dir/"
      keeps it. */
  lemma SiblingDeleted()
    ensures "dir.txt" in DirectObjects(SiblingBucket(), "dir")
    ensures "dir.txt" in Pruned(SiblingBucket(), AsDirectory("dir")) - {"dir"}
  {
    var key := "dir.txt";
    assert key[..3] == "dir" && key[3..] == ".txt";
    assert AsDirectory("dir") == "dir/";
    assert key[..4] != "dir/" by { assert key[3] != '/'; }
  }

  /** A folder listed under a key, followed by "/", is a longer key under it. */
  lemma FolderKeyLonger(d: string, f: string)
    requires StartsWith(f, d)
    ensures StartsWith(f + "/", d) && |d| < |f + "/"|
  {
    assert (f + "/")[..|d|] == f[..|d|];
  }

  /** The model of a file blob `get` returns carries the path it was asked for. */
  lemma FilePathRoundTrip(path: string)
    requires '/' in path
    ensures BlobPathOf(BlobRef(ParsePath(path).0, ParsePath(path).1)) == path
  {
    ParsePathSplit(path);
    BlobPathOfUrl(ParsePath(path).0, ParsePath(path).1);
  }

  lemma EntryPathsConcat(a: seq<ContentModel>, b: seq<ContentModel>)
    ensures EntryPaths(a + b) == EntryPaths(a) + EntryPaths(b)
  {
    var e := a + b;
    forall x | x in EntryPaths(a) ensures x in EntryPaths(e) {
      var i :| 0 <= i < |a| && a[i].path == x;
      assert e[i].path == x;
    }
    forall x | x in EntryPaths(b) ensures x in EntryPaths(e) {
      var i :| 0 <= i < |b| && b[i].path == x;
      assert e[|a| + i].path == x;
    }
  }

  /** The directory path `get` builds for a directory request has a directory key. */
  lemma DirectoryRequestKey(path: string, kind: Option<string>)
    requires IsDirectoryRequest(path, kind)
    ensures IsDirKey(ParsePath(DirectoryPath(path)).1)
  {
    if '/' in DirectoryPath(path) {
      DirectoryKey(DirectoryPath(path));
    }
  }

  /** Without a type, the model `get` returns carries the path it was given. */
  lemma UntypedRequestPath(t: Target)
    ensures RequestPath(t, None) == TargetPath(t)
  {
  }

  lemma EntryPathsAppend(entries: seq<ContentModel>, m: ContentModel)
    ensures EntryPaths(entries + [m]) == EntryPaths(entries) + {m.path}
  {
    var e := entries + [m];
    assert e[|entries|].path == m.path;
    forall x | x in EntryPaths(entries)
      ensures x in EntryPaths(e)
    {
      var i :| 0 <= i < |entries| && entries[i].path == x;
      assert e[i].path == x;
    }
  }

  class Checkpoints {
    const parent: Manager
    /** checkpoint_dir. */
    const checkpointDir: string
    /** checkpoint_bucket ("" for the file's own bucket). */
    const checkpointBucket: string

    constructor (parent: Manager, checkpointDir: string, checkpointBucket: string)
      ensures this.parent == parent && this.checkpointDir == checkpointDir
      ensures this.checkpointBucket == checkpointBucket
    {
      this.parent := parent;
      this.checkpointDir := checkpointDir;
      this.checkpointBucket := checkpointBucket;
    }

    function CpPath(id: Option<string>, path: string): string {
      CheckpointPath(id, path, checkpointDir, checkpointBucket)
    }

    /** list_checkpoints: the direct objects of the listing of the id-less checkpoint path,
        newest first. The bucket is looked up without `throw`: a bucket that cannot be had
        gives None, on which listing raises; a listing that finds the bucket gone is an
        empty list. */
    method ListCheckpoints(path: string) returns (r: Result<seq<CheckpointEntry>>)
      requires parent.Valid() && parent.checkpoints == this
      modifies parent`cache
      ensures parent.Valid()
      ensures CacheStep(old(parent.cache), parent.cache, parent.store, parent.store)
      ensures r.Ok? ==> NewestFirst(r.value)
      ensures var b, k := ParsePath(CpPath(None, path)).0, ParsePath(CpPath(None, path)).1;
        old(parent.HasHandle(b)) ==>
        r.Ok? && (b !in parent.store ==> r.value == [])
        && (b in parent.store ==> EntriesOf(r.value, b, parent.store[b], DirectObjects(parent.store[b], k)))
      ensures var b := ParsePath(CpPath(None, path)).0;
        !old(parent.HasHandle(b)) ==>
        r == match LookupBucket(parent.store, parent.forbidden, b)
             case Denied => Err(Forbidden)
             case Invalid => if parent.cacheBuckets then Err(Crash) else Err(BadRequest)
             case _ => Err(Crash)
    {
      var cp := CpPath(None, path);
      var b, k := ParsePath(cp).0, ParsePath(cp).1;
      var h := parent.GetBucket(b, false);
      if h.Err? {
        return Err(h.error);
      }
      if h.value.None? {
        // None.list_blobs
        return Err(Crash);
      }
      if b !in parent.store {
        return Ok([]);
      }
      var entries := CheckpointEntries(b, parent.store[b], DirectObjects(parent.store[b], k));
      return Ok(entries);
    }

    /** The file checkpoint with the id: 404 when _fetch does not find it, else its bytes
        read with no format asked for. A refused bucket "exists" with no blob, which cannot be
        read. */
    method GetFileCheckpoint(id: string, path: string) returns (r: Result<(string, Format)>)
      requires parent.Valid() && parent.checkpoints == this
      modifies parent`cache
      ensures parent.Valid()
      ensures CacheStep(old(parent.cache), parent.cache, parent.store, parent.store)
      ensures var b, k := ParsePath(CpPath(Some(id), path)).0, ParsePath(CpPath(Some(id), path)).1;
        old(parent.HasHandle(b)) && !IsDirKey(k) ==>
        r == if b in parent.store && k in parent.store[b]
             then ReadFile(parent.codecs, BlobPathOf(BlobRef(b, k)), parent.store[b][k].data, None)
             else Err(Http(404, path))
      ensures var b, k := ParsePath(CpPath(Some(id), path)).0, ParsePath(CpPath(Some(id), path)).1;
        old(parent.HasHandle(b)) && IsDirKey(k) ==>
        r == if b in parent.store && DirPresent(parent.store[b], k) then Err(Crash) else Err(Http(404, path))
      ensures var b := ParsePath(CpPath(Some(id), path)).0;
        !old(parent.HasHandle(b)) ==>
        r == match LookupBucket(parent.store, parent.forbidden, b)
             case Denied => Err(Crash)
             case Invalid => if parent.cacheBuckets then Err(Http(404, path)) else Err(BadRequest)
             case _ => Err(Http(404, path))
    {
      var blob := FetchCheckpoint(id, path);
      if blob.Err? {
        return Err(blob.error);
      }
      r := ReadFile(parent.codecs, BlobPathOf(blob.value.0), blob.value.1.data, None);
    }

    /** The notebook checkpoint with the id: found as for a file, then decoded as UTF-8
        (which raises on other bytes) and parsed. */
    method GetNotebookCheckpoint(id: string, path: string) returns (r: Result<string>)
      requires parent.Valid() && parent.checkpoints == this
      modifies parent`cache
      ensures parent.Valid()
      ensures CacheStep(old(parent.cache), parent.cache, parent.store, parent.store)
      ensures var b, k := ParsePath(CpPath(Some(id), path)).0, ParsePath(CpPath(Some(id), path)).1;
        old(parent.HasHandle(b)) && !IsDirKey(k) ==>
        r == if b !in parent.store || k !in parent.store[b] then Err(Http(404, path))
             else if parent.codecs.utf8Decode(parent.store[b][k].data).None? then Err(Crash)
             else Ok(parent.codecs.notebookRead(parent.codecs.utf8Decode(parent.store[b][k].data).value))
      ensures var b, k := ParsePath(CpPath(Some(id), path)).0, ParsePath(CpPath(Some(id), path)).1;
        old(parent.HasHandle(b)) && IsDirKey(k) ==>
        r == if b in parent.store && DirPresent(parent.store[b], k) then Err(Crash) else Err(Http(404, path))
      ensures var b := ParsePath(CpPath(Some(id), path)).0;
        !old(parent.HasHandle(b)) ==>
        r == match LookupBucket(parent.store, parent.forbidden, b)
             case Denied => Err(Crash)
             case Invalid => if parent.cacheBuckets then Err(Http(404, path)) else Err(BadRequest)
             case _ => Err(Http(404, path))
    {
      var blob := FetchCheckpoint(id, path);
      if blob.Err? {
        return Err(blob.error);
      }
      var text := parent.codecs.utf8Decode(blob.value.1.data);
      if text.None? {
        return Err(Crash);
      }
      return Ok(parent.codecs.notebookRead(text.value));
    }

    /** create_file_checkpoint with the id given (uuid4 is not modelled): the content is
        saved as a file at the checkpoint path, and the entry carries the upload's stamp. */
    method CreateFileCheckpoint(id: string, content: string, format: Option<string>, path: string)
      returns (r: Result<CheckpointEntry>)
      requires parent.Valid() && parent.checkpoints == this
      modifies parent`cache, parent`store, parent`clock
      ensures parent.Valid()
      ensures CacheStep(old(parent.cache), parent.cache, old(parent.store), old(parent.store))
      ensures var cp := CpPath(Some(id), path); var b, k := ParsePath(cp).0, ParsePath(cp).1;
        r.Ok? <==> old(parent.HasHandle(b)) && b in old(parent.store) && EncodeForSave(parent.codecs, cp, content, format).Ok?
      ensures var cp := CpPath(Some(id), path); var b, k := ParsePath(cp).0, ParsePath(cp).1;
        r.Ok? ==> r.value == CheckpointEntry(id, old(parent.clock))
      ensures var cp := CpPath(Some(id), path); var b, k := ParsePath(cp).0, ParsePath(cp).1;
        r.Ok? ==> parent.store == old(parent.store)[b := old(parent.store)[b][k := Blob(EncodeForSave(parent.codecs, cp, content, format).value,
                                                                                  Some(UploadDefaultMime), old(parent.clock))]]
      ensures r.Err? ==> parent.store == old(parent.store)
    {
      var cp := CpPath(Some(id), path);
      var stamp := parent.clock;
      var saved := parent.SaveFile(cp, content, format);
      if saved.Err? {
        return Err(saved.error);
      }
      return Ok(CheckpointEntry(id, stamp));
    }

    /** create_notebook_checkpoint: the same with the notebook saved as a notebook. */
    method CreateNotebookCheckpoint(id: string, doc: string, path: string) returns (r: Result<CheckpointEntry>)
      requires parent.Valid() && parent.checkpoints == this
      modifies parent`cache, parent`store, parent`clock
      ensures parent.Valid()
      ensures CacheStep(old(parent.cache), parent.cache, old(parent.store), old(parent.store))
      ensures var cp := CpPath(Some(id), path); var b, k := ParsePath(cp).0, ParsePath(cp).1;
        r.Ok? <==> old(parent.HasHandle(b)) && b in old(parent.store) && parent.codecs.utf8Encode(parent.codecs.notebookWrite(doc)).Some?
      ensures var cp := CpPath(Some(id), path); var b, k := ParsePath(cp).0, ParsePath(cp).1;
        r.Ok? ==> r.value == CheckpointEntry(id, old(parent.clock))
      ensures var cp := CpPath(Some(id), path); var b, k := ParsePath(cp).0, ParsePath(cp).1;
        r.Ok? ==> parent.store == old(parent.store)[b := old(parent.store)[b][k := Blob(parent.codecs.utf8Encode(parent.codecs.notebookWrite(doc)).value,
                                                                                  Some(NotebookMime), old(parent.clock))]]
      ensures r.Err? ==> parent.store == old(parent.store)
    {
      var cp := CpPath(Some(id), path);
      var stamp := parent.clock;
      var saved := parent.SaveNotebook(cp, doc);
      if saved.Err? {
        return Err(saved.error);
      }
      return Ok(CheckpointEntry(id, stamp));
    }

    /** What create_checkpoint uploads for the file at the path, with the content type:
        None when `get` cannot read it as a file or a notebook in a bucket that is not
        refused, or its content does not encode. */
    ghost function CheckpointBytes(id: string, path: string): Option<(seq<Byte>, string)>
      reads parent`store
    {
      var q := StripLeadingSlash(path);
      var b, k := ParsePath(q).0, ParsePath(q).1;
      if IsDirectoryRequest(q, None) || b !in parent.store || b in parent.forbidden || k !in parent.store[b] then None
      else CheckpointUpload(parent.codecs, ReadBack(parent.codecs, q, b, k, parent.store[b][k]), CpPath(Some(id), path))
    }

    /** The `get(path, content=True)` create_checkpoint reads the file with: what its answer
        gives to upload is what the stored file gives. */
    method ReadBackFile(id: string, path: string) returns (m: Result<ContentModel>)
      requires parent.Valid() && parent.checkpoints == this
      modifies parent`cache
      ensures parent.Valid()
      ensures CacheStep(old(parent.cache), parent.cache, parent.store, parent.store)
      ensures CheckpointUpload(parent.codecs, m, CpPath(Some(id), path)) == CheckpointBytes(id, path)
    {
      var q := StripLeadingSlash(path);
      var b, k := ParsePath(q).0, ParsePath(q).1;
      if b in parent.store {
        parent.HandleOfStored(b);
      }
      ghost var handle := parent.HasHandle(b);
      m := parent.Get(PathArg(path), true, None, None);
      var cp := CpPath(Some(id), path);
      if IsDirectoryRequest(q, None) {
        assert m.Ok? ==> m.value.kind == Directory;
        NothingToUpload(parent.codecs, m, cp);
      } else if handle && b in parent.store && k in parent.store[b] {
        assert m == ReadBack(parent.codecs, q, b, k, parent.store[b][k]);
      } else {
        assert m.Err?;
        NothingToUpload(parent.codecs, m, cp);
      }
    }

    /** The create_checkpoint of the generic checkpoints mixin, which save calls for a
        notebook without checkpoints: the file is read back with `get`, and a notebook or a
        file checkpoint is made of its content by its type; any other type is a 500. It
        succeeds exactly when the file reads back and encodes and the checkpoint bucket can
        be had, and then writes exactly the checkpoint blob. */
    method CreateCheckpoint(path: string, id: string) returns (r: Result<CheckpointEntry>)
      requires parent.Valid() && parent.checkpoints == this
      modifies parent`cache, parent`store, parent`clock
      ensures parent.Valid()
      ensures CacheStep(old(parent.cache), parent.cache, old(parent.store), old(parent.store))
      ensures var cp := CpPath(Some(id), path); var b, k := ParsePath(cp).0, ParsePath(cp).1;
        r.Ok? ==> r.value == CheckpointEntry(id, old(parent.clock)) && OnlyBlobWritten(old(parent.store), parent.store, b, k)
      ensures var b := ParsePath(CpPath(Some(id), path)).0;
        r.Ok? <==> old(CheckpointBytes(id, path)).Some? && b in old(parent.store) && b !in parent.forbidden
      ensures var cp := CpPath(Some(id), path); var b, k := ParsePath(cp).0, ParsePath(cp).1;
        var up := old(CheckpointBytes(id, path));
        r.Ok? ==> parent.store == old(parent.store)[b := old(parent.store)[b][k := Blob(up.value.0, Some(up.value.1), old(parent.clock))]]
      ensures r.Err? ==> parent.store == old(parent.store)
    {
      var m := ReadBackFile(id, path);
      ghost var cache1 := parent.cache;
      r := WriteCheckpoint(id, path, m);
      CacheStepTrans(old(parent.cache), cache1, parent.cache, old(parent.store), old(parent.store), old(parent.store));
      if r.Ok? {
        var cp := CpPath(Some(id), path);
        var b, k := ParsePath(cp).0, ParsePath(cp).1;
        BlobWritten(old(parent.store), parent.store, b, k, parent.store[b][k]);
      }
    }

    /** The second half of create_checkpoint: a notebook or a file checkpoint of the model
        read back, by its type; any other type, or a failed read, is an error. */
    method WriteCheckpoint(id: string, path: string, m: Result<ContentModel>) returns (r: Result<CheckpointEntry>)
      requires parent.Valid() && parent.checkpoints == this
      modifies parent`cache, parent`store, parent`clock
      ensures parent.Valid()
      ensures CacheStep(old(parent.cache), parent.cache, old(parent.store), old(parent.store))
      ensures r.Ok? ==> r.value == CheckpointEntry(id, old(parent.clock))
      ensures var b := ParsePath(CpPath(Some(id), path)).0;
        r.Ok? <==> CheckpointUpload(parent.codecs, m, CpPath(Some(id), path)).Some? && b in old(parent.store) && b !in parent.forbidden
      ensures var cp := CpPath(Some(id), path); var b, k := ParsePath(cp).0, ParsePath(cp).1;
        var up := CheckpointUpload(parent.codecs, m, cp);
        r.Ok? ==> parent.store == old(parent.store)[b := old(parent.store)[b][k := Blob(up.value.0, Some(up.value.1), old(parent.clock))]]
      ensures r.Err? ==> parent.store == old(parent.store)
    {
      var cb := ParsePath(CpPath(Some(id), path)).0;
      if cb in parent.store {
        parent.HandleOfStored(cb);
      }
      if m.Err? {
        return Err(m.error);
      }
      var model := m.value;
      if model.kind == Notebook && model.content.NotebookDoc? {
        r := CreateNotebookCheckpoint(id, model.content.doc, path);
      } else if model.kind == File && model.content.FileText? && model.format.Some? {
        r := CreateFileCheckpoint(id, model.content.text, Some(FormatName(model.format.value)), path);
      } else {
        return Err(Http(500, path));
      }
    }

    /** delete_checkpoint: delete_file on the checkpoint path. */
    method DeleteCheckpoint(id: string, path: string) returns (r: Result<()>)
      requires parent.Valid() && parent.checkpoints == this
      modifies parent`cache, parent`store
      ensures parent.Valid()
      ensures CacheStep(old(parent.cache), parent.cache, old(parent.store), parent.store)
      ensures var cp := StripLeadingSlash(CpPath(Some(id), path)); var b, k := ParsePath(cp).0, ParsePath(cp).1;
        parent.store - {b} == old(parent.store) - {b}
        && (k != "" && b in old(parent.store) ==> b in parent.store && DeletedUnder(old(parent.store)[b], parent.store[b], k))
        && (k != "" && r.Ok? ==> b in old(parent.store) && k !in parent.store[b])
    {
      var cp := CpPath(Some(id), path);
      r := parent.DeleteFile(cp);
      var b, k := ParsePath(StripLeadingSlash(cp)).0, ParsePath(StripLeadingSlash(cp)).1;
      if k != "" && r.Ok? && k in old(parent.store)[b] {
        OwnKeyIsDirect(old(parent.store)[b], k);
      }
    }

    /** The _fetch both checkpoint getters make, with its 404. */
    method FetchCheckpoint(id: string, path: string) returns (r: Result<(BlobRef, Blob)>)
      requires parent.Valid() && parent.checkpoints == this
      modifies parent`cache
      ensures parent.Valid()
      ensures CacheStep(old(parent.cache), parent.cache, parent.store, parent.store)
      ensures var b, k := ParsePath(CpPath(Some(id), path)).0, ParsePath(CpPath(Some(id), path)).1;
        old(parent.HasHandle(b)) && !IsDirKey(k) ==>
        r == if b in parent.store && k in parent.store[b] then Ok((BlobRef(b, k), parent.store[b][k]))
             else Err(Http(404, path))
      ensures var b, k := ParsePath(CpPath(Some(id), path)).0, ParsePath(CpPath(Some(id), path)).1;
        old(parent.HasHandle(b)) && IsDirKey(k) ==>
        r == if b in parent.store && DirPresent(parent.store[b], k) then Err(Crash) else Err(Http(404, path))
      ensures var b := ParsePath(CpPath(Some(id), path)).0;
        !old(parent.HasHandle(b)) ==>
        r == match LookupBucket(parent.store, parent.forbidden, b)
             case Denied => Err(Crash)
             case Invalid => if parent.cacheBuckets then Err(Http(404, path)) else Err(BadRequest)
             case _ => Err(Http(404, path))
    {
      var cp := CpPath(Some(id), path);
      var f := parent.Fetch(cp, true);
      if f.Err? {
        return Err(f.error);
      }
      if !f.value.found {
        return Err(Http(404, path));
      }
      if !f.value.payload.BlobHit? {
        // _read_file on what is not a blob
        return Err(Crash);
      }
      return Ok((f.value.payload.ref, f.value.payload.blob));
    }
  }
}
