/** Path resolution: how a Jupyter path "bucket/key" is split into a bucket name and an
    object key, and how names and paths are read back from a blob's address. All of it is
    string manipulation with Python's str.find/rfind/split/replace semantics. */
module Paths {

  predicate StartsWith(s: string, prefix: string) {
    |prefix| <= |s| && s[..|prefix|] == prefix
  }

  predicate EndsWith(s: string, suffix: string) {
    |suffix| <= |s| && s[|s| - |suffix|..] == suffix
  }

  /** str.find for one character: the first index of c in s, or -1. */
  function Find(s: string, c: char): (i: int)
    ensures -1 <= i < |s|
    ensures i == -1 <==> c !in s
    ensures 0 <= i ==> s[i] == c && forall j :: 0 <= j < i ==> s[j] != c
    decreases |s|
  {
    if s == [] then -1
    else if s[0] == c then 0
    else
      var j := Find(s[1..], c);
      if j == -1 then -1
      else
        assert s[..j + 1] == [s[0]] + s[1..][..j];
        j + 1
  }

  /** str.rfind for one character: the last index of c in s, or -1. */
  function RFind(s: string, c: char): (i: int)
    ensures -1 <= i < |s|
    ensures i == -1 <==> c !in s
    ensures 0 <= i ==> s[i] == c && forall j :: i < j < |s| ==> s[j] != c
    decreases |s|
  {
    if s == [] then -1
    else if s[|s| - 1] == c then |s| - 1
    else
      var j := RFind(s[..|s| - 1], c);
      assert j == -1 ==> s == s[..|s| - 1] + [s[|s| - 1]];
      assert 0 <= j ==> s[j + 1..] == s[..|s| - 1][j + 1..] + [s[|s| - 1]];
      j
  }

  /** str.find for a substring: the first index at which t occurs in s, or -1. */
  function FindSub(s: string, t: string): (i: int)
    ensures -1 <= i <= |s|
    ensures 0 <= i ==> StartsWith(s[i..], t) && forall j :: 0 <= j < i ==> !StartsWith(s[j..], t)
    ensures i == -1 ==> forall j :: 0 <= j <= |s| ==> !StartsWith(s[j..], t)
    decreases |s|
  {
    if StartsWith(s, t) then 0
    else if s == [] then -1
    else
      var j := FindSub(s[1..], t);
      assert forall k :: 1 <= k <= |s| ==> s[k..] == s[1..][k - 1..];
      if j == -1 then -1 else j + 1
  }

  /** Drops one leading "/", as every public operation does first. */
  function StripLeadingSlash(path: string): string {
    if StartsWith(path, "/") then path[1..] else path
  }

  /** _parse_path: path.split("/", 1), with (path, "") when there is no "/". */
  function ParsePath(path: string): (r: (string, string))
    ensures '/' !in r.0
    ensures '/' !in path ==> r == (path, "")
  {
    var i := Find(path, '/');
    if i == -1 then (path, "") else (path[..i], path[i + 1..])
  }

  /** Splitting loses nothing: with a "/" in the path, the bucket name, a "/" and the key
      give the path back. */
  lemma ParsePathSplit(path: string)
    requires '/' in path
    ensures ParsePath(path).0 + "/" + ParsePath(path).1 == path
  {
    var i := Find(path, '/');
    assert path == path[..i] + [path[i]] + path[i + 1..];
  }

  /** The split is unique: joining a bucket name without "/" to any key and parsing the
      result gives the two parts back. */
  lemma ParsePathJoin(bucket: string, key: string)
    requires '/' !in bucket
    ensures ParsePath(bucket + "/" + key) == (bucket, key)
  {
    var s := bucket + "/" + key;
    assert s[|bucket|] == '/';
    var i := Find(s, '/');
    assert forall j :: 0 <= j < |bucket| ==> s[j] == bucket[j];
    assert i <= |bucket| ==> i == |bucket|;
    assert s[..|bucket|] == bucket;
    assert s[|bucket| + 1..] == key;
  }

  /** The same for a key assembled from two parts. */
  lemma ParsePathJoinParts(bucket: string, a: string, b: string)
    requires '/' !in bucket
    ensures ParsePath(bucket + "/" + a + b) == (bucket, a + b)
  {
    assert bucket + "/" + a + b == bucket + "/" + (a + b);
    ParsePathJoin(bucket, a + b);
  }

  /** str.rsplit("/", 1)[-1]: the text after the last "/". */
  function LastSegment(s: string): (r: string)
    ensures '/' !in r
    ensures r == s || (EndsWith(s, r) && s[|s| - |r| - 1] == '/')
  {
    var i := RFind(s, '/');
    if i == -1 then s else s[i + 1..]
  }

  /** The last occurrence is unique: an index of c with no c after it is RFind's answer. */
  lemma RFindUnique(u: string, c: char, j: int)
    requires 0 <= j < |u| && u[j] == c && c !in u[j + 1..]
    ensures RFind(u, c) == j
  {
  }

  lemma RFindInSuffix(s: string, t: string, c: char)
    requires c in t
    ensures RFind(s + t, c) == |s| + RFind(t, c)
  {
    var j := RFind(t, c);
    var u := s + t;
    assert u[|s| + j] == c && c !in u[|s| + j + 1..] by {
      assert u[|s| + j + 1..] == t[j + 1..];
    }
    RFindUnique(u, c, |s| + j);
  }

  /** The last segment of a path that ends in one more segment is that segment. */
  lemma LastSegmentAfterSlash(prefix: string, seg: string)
    requires '/' !in seg
    ensures LastSegment(prefix + "/" + seg) == seg
  {
    RFindUnique(prefix + "/" + seg, '/', |prefix|);
    assert (prefix + "/" + seg)[|prefix| + 1..] == seg;
  }

  /** _get_dir_name: drop one trailing "/", then take the last segment. */
  function DirName(path: string): (r: string)
    ensures '/' !in r
  {
    LastSegment(if EndsWith(path, "/") then path[..|path| - 1] else path)
  }

  /** The display name of the directory path "parent/seg/" (or "parent/seg") is seg. */
  lemma {:induction false} DirNameOfChild(parent: string, seg: string)
    requires '/' !in seg
    ensures DirName(parent + "/" + seg + "/") == seg
    ensures seg != "" ==> DirName(parent + "/" + seg) == seg
  {
    var p := parent + "/" + seg;
    assert (p + "/")[..|p + "/"| - 1] == p;
    LastSegmentAfterSlash(parent, seg);
    if seg != "" {
      assert p[|p| - 1] == seg[|seg| - 1];
    }
  }

  /** The unescaped address gcloud gives a blob: "/b/<bucket>/o/<key>". */
  function BlobUrlPath(bucket: string, key: string): string {
    "/b/" + bucket + "/o/" + key
  }

  /** str.replace(old, new, 1). */
  function ReplaceFirst(s: string, target: string, replacement: string): string {
    var i := FindSub(s, target);
    if i == -1 then s else s[..i] + replacement + s[i + |target|..]
  }

  /** _get_blob_path on an unescaped address: drop "/b/", then turn the first "/o/" into "/". */
  function GetBlobPath(url: string): string {
    ReplaceFirst(if |url| >= 3 then url[3..] else [], "/o/", "/")
  }

  /** _get_blob_name on an unescaped address. */
  function GetBlobName(url: string): string {
    LastSegment(url)
  }

  /** An occurrence with none before it is FindSub's answer. */
  lemma FindSubFirst(s: string, t: string, j: int)
    requires 0 <= j <= |s| && StartsWith(s[j..], t)
    requires forall k :: 0 <= k < j ==> !StartsWith(s[k..], t)
    ensures FindSub(s, t) == j
  {
  }

  /** Since a bucket name holds no "/", the first "/o/" of an address is the one after the
      bucket, and the path read back is "<bucket>/<key>". */
  lemma BlobPathOfUrl(bucket: string, key: string)
    requires '/' !in bucket
    ensures GetBlobPath(BlobUrlPath(bucket, key)) == bucket + "/" + key
  {
    var s := bucket + "/o/" + key;
    assert BlobUrlPath(bucket, key)[3..] == s;
    assert s[|bucket|..][..3] == "/o/";
    forall k | 0 <= k < |bucket|
      ensures !StartsWith(s[k..], "/o/")
    {
      assert s[k..][0] == bucket[k];
    }
    FindSubFirst(s, "/o/", |bucket|);
    assert s[..|bucket|] == bucket;
    assert s[|bucket| + 3..] == key;
  }

  /** The name read back from an address is the last segment of the key. */
  lemma BlobNameOfUrl(bucket: string, key: string)
    ensures GetBlobName(BlobUrlPath(bucket, key)) == LastSegment(key)
  {
    var s := "/b/" + bucket + "/o/";
    assert BlobUrlPath(bucket, key) == s + key;
    assert s[|s| - 1] == '/';
    if '/' !in key {
      RFindUnique(s + key, '/', |s| - 1);
      assert (s + key)[|s|..] == key;
    } else {
      RFindInSuffix(s, key, '/');
      assert (s + key)[|s| + RFind(key, '/') + 1..] == key[RFind(key, '/') + 1..];
    }
  }
}
