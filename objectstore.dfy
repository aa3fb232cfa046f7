/** The Google Cloud Storage service as the contents manager sees it: buckets holding blobs
    under flat string keys, listed by prefix with "/" as the hierarchy delimiter. */
module ObjectStore {
  import opened Results
  import opened Paths

  newtype Byte = b: int | 0 <= b < 256

  /** A stored object: its bytes, its content type and its `updated` stamp (an ordered
      integer standing for the service's timestamp). */
  datatype Blob = Blob(data: seq<Byte>, contentType: Option<string>, updated: int)

  type Bucket = map<string, Blob>

  /** Bucket name to bucket. */
  type Store = map<string, Bucket>

  /** A blob handle: which bucket, which key. */
  datatype BlobRef = BlobRef(bucket: string, key: string)

  const DirectoryMime: string := "application/x-directory"
  const NotebookMime: string := "application/x-ipynb+json"
  /** The content type gcloud's upload_from_string gives an upload that names none. */
  const UploadDefaultMime: string := "text/plain"

  /** The service's bucket naming rule: 3 to 63 characters from lower-case letters, digits,
      '-', '_' and '.', starting and ending with a letter or digit. A lookup of any other
      name is answered with BadRequest. */
  predicate ValidBucketName(name: string) {
    && 3 <= |name| <= 63
    && (forall i :: 0 <= i < |name| ==> BucketNameChar(name[i]))
    && AlphaNum(name[0]) && AlphaNum(name[|name| - 1])
  }

  predicate AlphaNum(c: char) {
    'a' <= c <= 'z' || '0' <= c <= '9'
  }

  predicate BucketNameChar(c: char) {
    AlphaNum(c) || c == '-' || c == '_' || c == '.'
  }

  /** The direct objects of list(prefix, "/"): keys that start with the prefix and have no
      further "/". */
  function DirectObjects(bucket: Bucket, prefix: string): set<string> {
    set k | k in bucket && StartsWith(k, prefix) && '/' !in k[|prefix|..]
  }

  /** The sub-prefix a key falls under: the key up to and including the first "/" after
      the prefix. */
  function SubPrefix(k: string, prefix: string): (p: string)
    requires StartsWith(k, prefix) && '/' in k[|prefix|..]
    ensures StartsWith(p, prefix) && StartsWith(k, p)
    ensures |prefix| < |p| && p[|p| - 1] == '/'
    ensures '/' !in p[|prefix|..|p| - 1]
  {
    var i := Find(k[|prefix|..], '/');
    assert k[|prefix|..][..i] == k[|prefix|..|prefix| + i];
    k[..|prefix| + i + 1]
  }

  /** The sub-prefixes of list(prefix, "/"). */
  function SubPrefixes(bucket: Bucket, prefix: string): set<string> {
    set k | k in bucket && StartsWith(k, prefix) && '/' in k[|prefix|..] :: SubPrefix(k, prefix)
  }

  /** The folders _fetch reports: each sub-prefix with its trailing "/" stripped, so a full
      prefix from the bucket root, not a name. */
  function Folders(bucket: Bucket, prefix: string): set<string> {
    set k | k in bucket && StartsWith(k, prefix) && '/' in k[|prefix|..] :: Folder(k, prefix)
  }

  function Folder(k: string, prefix: string): string
    requires StartsWith(k, prefix) && '/' in k[|prefix|..]
  {
    var p := SubPrefix(k, prefix);
    p[..|p| - 1]
  }

  /** Listing is one level deep: a key under the prefix is either a direct object or lies
      under exactly the sub-prefix it is grouped into, and never under a sub-prefix if it
      is a direct object. */
  lemma ListingPartition(bucket: Bucket, prefix: string, k: string)
    requires k in bucket && StartsWith(k, prefix)
    ensures k in DirectObjects(bucket, prefix) <==> !exists p :: p in SubPrefixes(bucket, prefix) && StartsWith(k, p)
  {
    if k !in DirectObjects(bucket, prefix) {
      assert StartsWith(k, SubPrefix(k, prefix));
    }
  }

  /** Every sub-prefix extends the prefix by one segment and a "/", and some stored key
      lies under it. */
  lemma SubPrefixShape(bucket: Bucket, prefix: string, p: string)
    requires p in SubPrefixes(bucket, prefix)
    ensures StartsWith(p, prefix) && |prefix| < |p| && EndsWith(p, "/")
    ensures '/' !in p[|prefix|..|p| - 1]
    ensures exists k :: k in bucket && StartsWith(k, p)
  {
    var k :| k in bucket && StartsWith(k, prefix) && '/' in k[|prefix|..] && p == SubPrefix(k, prefix);
  }

  /** A folder is its sub-prefix without the "/": it starts with the prefix, and adding
      the "/" back gives a listed sub-prefix. */
  lemma FolderShape(bucket: Bucket, prefix: string, f: string)
    requires f in Folders(bucket, prefix)
    ensures StartsWith(f, prefix) && '/' !in f[|prefix|..]
    ensures f + "/" in SubPrefixes(bucket, prefix)
  {
    var k :| k in bucket && StartsWith(k, prefix) && '/' in k[|prefix|..] && f == Folder(k, prefix);
    var p := SubPrefix(k, prefix);
    assert p == f + "/";
    assert f[|prefix|..] == p[|prefix|..|p| - 1];
  }

  /** No blob of the bucket has a key starting with the prefix. */
  predicate NothingUnder(bucket: Bucket, prefix: string) {
    forall key :: key in bucket ==> !StartsWith(key, prefix)
  }

  /** A key grouped into a folder lies under that folder followed by "/". */
  lemma UnderOwnFolder(key: string, prefix: string)
    requires StartsWith(key, prefix) && '/' in key[|prefix|..]
    ensures StartsWith(key, Folder(key, prefix) + "/")
  {
    var p := SubPrefix(key, prefix);
    assert p == Folder(key, prefix) + "/";
  }

  /** Every key of the bucket under the prefix lies in a folder of the given set. */
  predicate GroupedInto(bucket: Bucket, prefix: string, folders: set<string>) {
    forall key :: key in bucket && StartsWith(key, prefix) ==>
      '/' in key[|prefix|..] && Folder(key, prefix) in folders
  }

  /** Once the direct objects of a listing are gone, what is left under the prefix lies in
      its listed folders. */
  lemma GroupedAfterFiles(bucket: Bucket, prefix: string)
    ensures GroupedInto(bucket - DirectObjects(bucket, prefix), prefix, Folders(bucket, prefix))
  {
  }

  /** Emptying one folder takes it out of the set the remaining keys are grouped into. */
  lemma GroupedAfterFolder(before: Bucket, after: Bucket, prefix: string, folders: set<string>, f: string)
    requires GroupedInto(before, prefix, folders)
    requires after.Keys <= before.Keys && NothingUnder(after, f + "/")
    ensures GroupedInto(after, prefix, folders - {f})
  {
    forall key | key in after && StartsWith(key, prefix)
      ensures Folder(key, prefix) != f
    {
      UnderOwnFolder(key, prefix);
    }
  }

  /** Nothing is left under a prefix whose remaining keys are grouped into no folder. */
  lemma GroupedIntoNone(bucket: Bucket, prefix: string)
    requires GroupedInto(bucket, prefix, {})
    ensures NothingUnder(bucket, prefix)
  {
  }

  /** A stored key is a direct object of its own listing. */
  lemma OwnKeyIsDirect(bucket: Bucket, key: string)
    requires key in bucket
    ensures key in DirectObjects(bucket, key)
  {
    assert key[..|key|] == key && key[|key|..] == [];
  }

  /** A key that extends the prefix without another "/" is one of its direct objects. */
  lemma DirectChild(bucket: Bucket, prefix: string, rest: string)
    requires '/' !in rest
    ensures prefix + rest in bucket ==> prefix + rest in DirectObjects(bucket, prefix)
  {
    var k := prefix + rest;
    assert k[..|prefix|] == prefix && k[|prefix|..] == rest;
  }

  /** A directory marker (a key ending in "/") is a direct object of its own listing. */
  lemma MarkerIsListed(bucket: Bucket, key: string)
    requires key in bucket && EndsWith(key, "/")
    ensures key in DirectObjects(bucket, key)
  {
    assert key[|key|..] == [];
  }

  /** The prefixes of stored keys longer than n characters. Its size is the termination
      measure of the recursive delete. */
  ghost function LongerPrefixes(bucket: Bucket, n: nat): set<string> {
    set k, i | k in bucket && n < i <= |k| :: k[..i]
  }

  /** When the key grows past a listed sub-prefix and the bucket only loses blobs, the
      measure strictly shrinks. */
  lemma LongerPrefixesShrink(before: Bucket, after: Bucket, key: string, next: string, p: string)
    requires after.Keys <= before.Keys
    requires p in SubPrefixes(before, key)
    requires |p| <= |next| && |key| < |next|
    ensures |LongerPrefixes(after, |next|)| < |LongerPrefixes(before, |key|)|
  {
    var small := LongerPrefixes(after, |next|);
    var big := LongerPrefixes(before, |key|);
    SubPrefixShape(before, key, p);
    var k :| k in before && StartsWith(k, p);
    assert p == k[..|p|];
    assert p in big;
    assert p !in small;
    assert small <= big - {p};
    SubsetSize(small, big - {p});
  }

  lemma SubsetSize<T>(a: set<T>, b: set<T>)
    requires a <= b
    ensures |a| <= |b|
  {
    assert b == a + (b - a);
  }

  // ---- gcloud's blob address: "/b/<bucket>/o/" + quote(key, safe="") ----

  /** Characters urllib's quote leaves alone. */
  predicate Unreserved(c: char) {
    'A' <= c <= 'Z' || 'a' <= c <= 'z' || '0' <= c <= '9' || c == '_' || c == '.' || c == '-' || c == '~'
  }

  function HexDigit(n: int): char
    requires 0 <= n < 16
  {
    "0123456789ABCDEF"[n]
  }

  /** The UTF-8 bytes of one code point. */
  function Utf8(c: char): (r: seq<int>)
    ensures forall i :: 0 <= i < |r| ==> 0 <= r[i] < 256
  {
    var cp := c as int;
    if cp < 0x80 then [cp]
    else if cp < 0x800 then [0xC0 + cp / 64, 0x80 + cp % 64]
    else if cp < 0x1_0000 then [0xE0 + cp / 4096, 0x80 + (cp / 64) % 64, 0x80 + cp % 64]
    else [0xF0 + cp / 262144, 0x80 + (cp / 4096) % 64, 0x80 + (cp / 64) % 64, 0x80 + cp % 64]
  }

  function PercentEncode(bytes: seq<int>): (r: string)
    requires forall i :: 0 <= i < |bytes| ==> 0 <= bytes[i] < 256
    ensures '/' !in r && '.' !in r
  {
    if bytes == [] then []
    else ['%', HexDigit(bytes[0] / 16), HexDigit(bytes[0] % 16)] + PercentEncode(bytes[1..])
  }

  function QuoteChar(c: char): string {
    if Unreserved(c) then [c] else PercentEncode(Utf8(c))
  }

  /** urllib.parse.quote(s, safe=""). */
  function Quote(s: string): string {
    if s == [] then [] else QuoteChar(s[0]) + Quote(s[1..])
  }

  /** The address gcloud reports as blob.path (still percent-encoded). */
  function QuotedUrlPath(b: BlobRef): string {
    "/b/" + b.bucket + "/o/" + Quote(b.key)
  }

  lemma {:induction false} QuoteConcat(a: string, b: string)
    ensures Quote(a + b) == Quote(a) + Quote(b)
  {
    if a != [] {
      assert (a + b)[1..] == a[1..] + b;
      QuoteConcat(a[1..], b);
    } else {
      assert a + b == b;
    }
  }

  lemma {:induction false} QuoteUnreserved(s: string)
    requires forall i :: 0 <= i < |s| ==> Unreserved(s[i])
    ensures Quote(s) == s
  {
    if s != [] {
      QuoteUnreserved(s[1..]);
    }
  }

  /** Quoting never leaves a "/", and adds no ".". */
  lemma {:induction false} QuoteSeparators(s: string)
    ensures '/' !in Quote(s)
    ensures '.' !in s ==> '.' !in Quote(s)
  {
    if s != [] {
      QuoteSeparators(s[1..]);
    }
  }
}
