/** Where checkpoints live: the key a checkpoint of a file is stored under, the prefix
    that lists them, how an id is read back from a listed blob, and the newest-first order
    of a checkpoint listing. */
module CheckpointNaming {
  import opened Results
  import opened Paths
  import opened ObjectStore

  const DefaultCheckpointDir: string := ".ipynb_checkpoints"

  /** posixpath.splitext: split off the extension that starts at the last "." of the last
      segment, unless only dots precede that "." within the segment. */
  function Splitext(p: string): (r: (string, string))
    ensures r.0 + r.1 == p
    ensures r.1 != "" ==> r.0 != "" && r.1[0] == '.' && '.' !in r.1[1..] && '/' !in r.1
  {
    var sep := RFind(p, '/');
    var dot := RFind(p, '.');
    if dot > sep && NonDotIn(p, sep + 1, dot) then
      assert '/' !in p[dot..] by {
        if sep >= 0 {
          assert p[dot..] == p[sep + 1..][dot - sep - 1..];
        }
      }
      assert p[dot..][1..] == p[dot + 1..];
      (p[..dot], p[dot..])
    else
      (p, "")
  }

  /** Some character of p[lo..hi] is not a ".". */
  predicate NonDotIn(p: string, lo: int, hi: int)
    requires 0 <= lo <= hi <= |p|
  {
    exists i :: lo <= i < hi && p[i] != '.'
  }

  /** The key of the file path, after the leading "/" is dropped. */
  function FileKey(path: string): string {
    ParsePath(StripLeadingSlash(path)).1
  }

  /** The bucket checkpoints of a file go to: the checkpoint bucket when one is set,
      otherwise the file's own. */
  function CheckpointBucket(path: string, cpBucket: string): string {
    if cpBucket != "" then cpBucket else ParsePath(StripLeadingSlash(path)).0
  }

  /** "<dir><checkpoint_dir>/<name>" for the file key "<dir><name><ext>". */
  function CheckpointStem(key: string, cpDir: string): string {
    var slash := RFind(key, '/') + 1;
    key[..slash] + cpDir + "/" + Splitext(key[slash..]).0
  }

  /** The extension of the file key's last segment. */
  function FileExt(key: string): string {
    Splitext(key[RFind(key, '/') + 1..]).1
  }

  /** _get_checkpoint_path. With an id: "<bucket>/<dir><checkpoint_dir>/<name>-<id><ext>";
      without one: the listing prefix "<bucket>/<dir><checkpoint_dir>/<name>". */
  function CheckpointPath(id: Option<string>, path: string, cpDir: string, cpBucket: string): string {
    var key := FileKey(path);
    var prefix := CheckpointBucket(path, cpBucket) + "/" + CheckpointStem(key, cpDir);
    match id
    case Some(i) => prefix + ("-" + i + FileExt(key))
    case None => prefix
  }

  /** The checkpoint of the file "<bucket>/<dir><base>" (with or without a leading "/") is
      stored, in the checkpoint bucket, under "<dir><checkpoint_dir>/" with the base name's
      extension kept last and "-<id>" put before it. */
  lemma CheckpointPathOf(path: string, bucket: string, dir: string, base: string, id: string, cpDir: string, cpBucket: string)
    requires bucket != "" && '/' !in bucket && '/' !in base
    requires dir == "" || EndsWith(dir, "/")
    requires path == bucket + "/" + (dir + base) || path == "/" + bucket + "/" + (dir + base)
    ensures var (name, ext) := Splitext(base);
      && name + ext == base
      && CheckpointPath(Some(id), path, cpDir, cpBucket)
         == (if cpBucket != "" then cpBucket else bucket) + "/" + (dir + cpDir + "/" + name) + ("-" + id + ext)
  {
    var key := dir + base;
    var (name, ext) := Splitext(base);
    var cb := if cpBucket != "" then cpBucket else bucket;
    var stem := dir + cpDir + "/" + name;
    FileOfPath(path, bucket, key, cpBucket);
    assert RFind(key, '/') + 1 == |dir| by {
      if dir == "" {
        assert key == base;
      } else {
        assert key[|dir| - 1] == '/';
        assert key[|dir|..] == base;
        RFindUnique(key, '/', |dir| - 1);
      }
    }
    assert CheckpointStem(key, cpDir) == stem && FileExt(key) == ext by {
      assert key[..|dir|] == dir && key[|dir|..] == base;
    }
  }

  lemma FileOfPath(path: string, bucket: string, key: string, cpBucket: string)
    requires bucket != "" && '/' !in bucket
    requires path == bucket + "/" + key || path == "/" + bucket + "/" + key
    ensures FileKey(path) == key
    ensures CheckpointBucket(path, cpBucket) == if cpBucket != "" then cpBucket else bucket
  {
    assert StripLeadingSlash(path) == bucket + "/" + key by {
      if path[0] == '/' {
        assert path[1..] == bucket + "/" + key;
      } else {
        assert path[0] == bucket[0];
      }
    }
    ParsePathJoin(bucket, key);
  }

  /** The id-less form is a prefix of the key of every checkpoint of the same file. */
  lemma CheckpointPrefixOf(id: string, path: string, cpDir: string, cpBucket: string)
    ensures StartsWith(CheckpointPath(Some(id), path, cpDir, cpBucket), CheckpointPath(None, path, cpDir, cpBucket))
  {
    var pre := CheckpointBucket(path, cpBucket) + "/" + CheckpointStem(FileKey(path), cpDir);
    assert CheckpointPath(None, path, cpDir, cpBucket) == pre;
    assert CheckpointPath(Some(id), path, cpDir, cpBucket) == pre + ("-" + id + FileExt(FileKey(path)));
  }

  /** The two checkpoint paths of a file share the bucket and the stem; the id and the
      extension follow the stem. */
  lemma CheckpointPathParts(id: string, path: string, cpDir: string, cpBucket: string)
    ensures CheckpointPath(None, path, cpDir, cpBucket)
            == CheckpointBucket(path, cpBucket) + "/" + CheckpointStem(FileKey(path), cpDir)
    ensures CheckpointPath(Some(id), path, cpDir, cpBucket)
            == CheckpointBucket(path, cpBucket) + "/"
               + (CheckpointStem(FileKey(path), cpDir) + ("-" + id + FileExt(FileKey(path))))
  {
    var cb, stem := CheckpointBucket(path, cpBucket), CheckpointStem(FileKey(path), cpDir);
    var tail := "-" + id + FileExt(FileKey(path));
    assert (cb + "/" + stem) + tail == cb + "/" + (stem + tail);
  }

  /** Listing the id-less prefix in the checkpoint bucket finds every checkpoint of the
      file as a direct object, as long as the id holds no "/". */
  lemma CheckpointIsListed(id: string, path: string, cpDir: string, cpBucket: string, bucket: Bucket)
    requires '/' !in id && '/' !in cpBucket
    ensures ParsePath(CheckpointPath(Some(id), path, cpDir, cpBucket)).0 == CheckpointBucket(path, cpBucket)
    ensures ParsePath(CheckpointPath(None, path, cpDir, cpBucket)).0 == CheckpointBucket(path, cpBucket)
    ensures ParsePath(CheckpointPath(Some(id), path, cpDir, cpBucket)).1 in bucket ==>
            ParsePath(CheckpointPath(Some(id), path, cpDir, cpBucket)).1
            in DirectObjects(bucket, ParsePath(CheckpointPath(None, path, cpDir, cpBucket)).1)
  {
    var cb := CheckpointBucket(path, cpBucket);
    var stem := CheckpointStem(FileKey(path), cpDir);
    var tail := "-" + id + FileExt(FileKey(path));
    CheckpointPathParts(id, path, cpDir, cpBucket);
    ParsePathJoin(cb, stem);
    ParsePathJoin(cb, stem + tail);
    DirectChild(bucket, stem, tail);
  }

  /** A checkpoint id as uuid4 prints it: 36 lower-case hex digits and dashes. */
  predicate IsUuid(id: string) {
    |id| == 36 && forall i :: 0 <= i < |id| ==> ('0' <= id[i] <= '9' || 'a' <= id[i] <= 'f' || id[i] == '-')
  }

  /** Python's s[-36:]. */
  function Last36(s: string): string {
    if |s| >= 36 then s[|s| - 36..] else s
  }

  datatype CheckpointEntry = CheckpointEntry(id: string, lastModified: int)

  /** The entry list_checkpoints makes of a listed blob: the last 36 characters of its
      percent-encoded address with the extension split off, and its `updated` stamp. */
  function EntryOf(ref: BlobRef, blob: Blob): CheckpointEntry {
    CheckpointEntry(Last36(Splitext(QuotedUrlPath(ref)).0), blob.updated)
  }

  /** Splitting the extension off "<anything><id>.<ext>" leaves "<anything><id>" when the id
      ends in a character other than ".", and neither id nor ext hold "." or "/". */
  lemma StemBeforeExtension(a: string, id: string, q: string)
    requires id != [] && '.' !in id && '/' !in id
    requires '.' !in q && '/' !in q
    ensures Splitext(a + (id + ("." + q))).0 == a + id
  {
    var p := a + (id + ("." + q));
    var d := |a| + |id|;
    assert p[d] == '.';
    assert p[d + 1..] == q;
    RFindUnique(p, '.', d);
    assert p[|a|..] == id + "." + q;
    assert '/' !in p[|a|..];
    assert p[d - 1] == id[|id| - 1];
    assert p[..d] == a + id;
  }

  /** The percent-encoded address of the checkpoint key "<stem>-<id>.<e>": the stem and
      the extension are encoded, while "-<id>" and the "." are left as they are. */
  lemma QuotedCheckpointAddress(cb: string, stem: string, id: string, e: string)
    requires IsUuid(id)
    ensures QuotedUrlPath(BlobRef(cb, stem + ("-" + id + ("." + e))))
         == ("/b/" + cb + "/o/" + Quote(stem)) + (("-" + id) + ("." + Quote(e)))
  {
    var tag := "-" + id;
    var q := Quote(e);
    var a := "/b/" + cb + "/o/" + Quote(stem);
    UuidTag(id);
    assert Quote(stem + (tag + ("." + e))) == Quote(stem) + (tag + ("." + q)) by {
      QuoteConcat(stem, tag + ("." + e));
      QuoteConcat(tag, "." + e);
      QuoteConcat(".", e);
      QuoteUnreserved(tag);
      assert Quote(".") == ".";
    }
    assert "/b/" + cb + "/o/" + (Quote(stem) + (tag + ("." + q))) == a + (tag + ("." + q));
  }

  /** The id is recovered from the key "<stem>-<id><ext>" of a listed checkpoint when the
      extension is not empty: the "." of the extension is then the one splitext splits at. */
  lemma IdRecoveredFromKey(cb: string, stem: string, id: string, ext: string)
    requires IsUuid(id)
    requires ext != "" && ext[0] == '.' && '.' !in ext[1..] && '/' !in ext
    ensures EntryOf(BlobRef(cb, stem + ("-" + id + ext)), Blob([], None, 0)).id == id
  {
    var tag := "-" + id;
    var e := ext[1..];
    var q := Quote(e);
    var a := "/b/" + cb + "/o/" + Quote(stem);
    assert ext == "." + e;
    UuidTag(id);
    QuoteSeparators(e);
    QuotedCheckpointAddress(cb, stem, id, e);
    StemBeforeExtension(a, tag, q);
    assert Last36(a + tag) == id by {
      assert (a + tag)[|a + tag| - 36..] == id;
    }
  }

  /** list_checkpoints reads back the id of a checkpoint of "<bucket>/<dir><base>" when the
      base name has an extension. (Without one, the last "." of the percent-encoded address
      can be the one in the checkpoint directory's name, and the 36 characters read back
      are then not the id.) */
  lemma IdRecovered(bucket: string, dir: string, base: string, id: string, cpDir: string, cpBucket: string)
    requires bucket != "" && '/' !in bucket && '/' !in base && '/' !in cpBucket
    requires dir == "" || EndsWith(dir, "/")
    requires IsUuid(id)
    requires Splitext(base).1 != ""
    ensures var (cb, ck) := ParsePath(CheckpointPath(Some(id), bucket + "/" + (dir + base), cpDir, cpBucket));
      EntryOf(BlobRef(cb, ck), Blob([], None, 0)).id == id
  {
    var path := bucket + "/" + (dir + base);
    var (name, ext) := Splitext(base);
    CheckpointPathOf(path, bucket, dir, base, id, cpDir, cpBucket);
    var cb := if cpBucket != "" then cpBucket else bucket;
    var stem := dir + cpDir + "/" + name;
    ParsePathJoinParts(cb, stem, "-" + id + ext);
    IdRecoveredFromKey(cb, stem, id, ext);
  }

  /** "-" followed by a uuid is left alone by quoting and holds no "." or "/". */
  lemma UuidTag(id: string)
    requires IsUuid(id)
    ensures forall i :: 0 <= i < |"-" + id| ==> Unreserved(("-" + id)[i])
    ensures '.' !in "-" + id && '/' !in "-" + id
  {
    var tag := "-" + id;
    forall i | 0 <= i < |tag|
      ensures Unreserved(tag[i]) && tag[i] != '.' && tag[i] != '/'
    {
      if i > 0 {
        assert tag[i] == id[i - 1];
      }
    }
  }

  /** Newest first: no entry is older than one after it. */
  predicate NewestFirst(s: seq<CheckpointEntry>) {
    forall i, j :: 0 <= i < j < |s| ==> s[i].lastModified >= s[j].lastModified
  }

  /** Insertion into a newest-first list, before the first entry that is not newer, so that
      entries with equal stamps keep their order. */
  function InsertNewestFirst(e: CheckpointEntry, s: seq<CheckpointEntry>): (r: seq<CheckpointEntry>)
    requires NewestFirst(s)
    ensures NewestFirst(r)
    ensures multiset(r) == multiset(s) + multiset{e}
    ensures |r| == |s| + 1
    ensures r != [] && (r[0] == e || (s != [] && r[0] == s[0]))
  {
    if s == [] || s[0].lastModified <= e.lastModified then
      NewestFirstCons(e, s);
      [e] + s
    else
      NewestFirstTail(s);
      var t := InsertNewestFirst(e, s[1..]);
      InsertBehindHead(e, s, t);
      [s[0]] + t
  }

  /** The recursive step of the insertion: an entry older than the head goes into the tail,
      and the head stays in front. */
  lemma InsertBehindHead(e: CheckpointEntry, s: seq<CheckpointEntry>, t: seq<CheckpointEntry>)
    requires s != [] && NewestFirst(s) && s[0].lastModified > e.lastModified
    requires NewestFirst(t) && multiset(t) == multiset(s[1..]) + multiset{e}
    requires t != [] && (t[0] == e || (s[1..] != [] && t[0] == s[1..][0]))
    ensures NewestFirst([s[0]] + t)
    ensures multiset([s[0]] + t) == multiset(s) + multiset{e}
  {
    NewestFirstTail(s);
    NewestFirstCons(s[0], t);
    HeadMultiset(s, t, e);
  }

  lemma HeadMultiset(s: seq<CheckpointEntry>, t: seq<CheckpointEntry>, e: CheckpointEntry)
    requires s != [] && multiset(t) == multiset(s[1..]) + multiset{e}
    ensures multiset([s[0]] + t) == multiset(s) + multiset{e}
  {
    assert s == [s[0]] + s[1..];
  }

  lemma NewestFirstTail(s: seq<CheckpointEntry>)
    requires s != [] && NewestFirst(s)
    ensures NewestFirst(s[1..])
    ensures |s| > 1 ==> s[0].lastModified >= s[1].lastModified
  {
    forall i, j | 0 <= i < j < |s| - 1
      ensures s[1..][i].lastModified >= s[1..][j].lastModified
    {
      assert s[1..][i] == s[i + 1] && s[1..][j] == s[j + 1];
    }
  }

  /** An entry no older than the head of a newest-first list may go in front of it. */
  lemma NewestFirstCons(x: CheckpointEntry, t: seq<CheckpointEntry>)
    requires NewestFirst(t) && (t != [] ==> x.lastModified >= t[0].lastModified)
    ensures NewestFirst([x] + t)
  {
    var r := [x] + t;
    forall i, j | 0 <= i < j < |r|
      ensures r[i].lastModified >= r[j].lastModified
    {
      if i == 0 {
        assert r[j] == t[j - 1];
        if j > 1 {
          assert t[0].lastModified >= t[j - 1].lastModified;
        }
      } else {
        assert r[i] == t[i - 1] && r[j] == t[j - 1];
      }
    }
  }

  /** list.sort(key=last_modified, reverse=True): a newest-first permutation. */
  function SortNewestFirst(s: seq<CheckpointEntry>): (r: seq<CheckpointEntry>)
    ensures NewestFirst(r)
    ensures multiset(r) == multiset(s)
  {
    if s == [] then []
    else
      assert s == [s[0]] + s[1..];
      InsertNewestFirst(s[0], SortNewestFirst(s[1..]))
  }
}
