# jgscm in Dafny

A model of the contents manager in `jgscm/__init__.py`. It lets Jupyter browse, read, save and
delete notebooks and files held in Google Cloud Storage. It presents the service's flat
namespace (buckets of blobs under string keys) as a directory tree:

- the first segment of a Jupyter path names a bucket, and the rest is an object key;
- a directory is a key prefix ending in "/", which exists when a marker blob or anything under
  it exists;
- checkpoints are blobs kept beside the file, under a checkpoint directory.

The storage service is a value: a map from bucket name to a map from key to blob (bytes,
content type and an integer `updated` stamp). Its listing primitive, `list(prefix, "/")`, is
three functions of a bucket and a prefix:

- `DirectObjects`: keys under the prefix with no further "/";
- `SubPrefixes`: the full prefixes up to and including the next "/";
- `Folders`: those sub-prefixes without the "/", which is what `_fetch` reports.

Files, one module each:

| file | module | contents |
|---|---|---|
| `results.dfy` | `Results` | `Option`, `Result` and the failures the code raises: an HTTP error with its code, the client's NotFound, BadRequest, Forbidden and Conflict, and `Crash` for a Python runtime error nothing catches |
| `paths.dfy` | `Paths` | `_parse_path`, `_get_dir_name`, `_get_blob_path` and `_get_blob_name`, with Python's `find`, `rfind`, `split` and `replace` semantics |
| `objectstore.dfy` | `ObjectStore` | the store, the listing primitive and its laws, gcloud's percent-encoded blob address, and the termination measure of the recursive delete |
| `checkpointnaming.dfy` | `CheckpointNaming` | `_get_checkpoint_path`, `os.path.splitext`, the id `list_checkpoints` reads back from a listed blob, and its newest-first sort |
| `models.dfy` | `Models` | the contents models, `_read_file`, `_file_model`, `_notebook_model` and the format dispatch of `_save_file`; the codecs are uninterpreted functions |
| `manager.dfy` | `Manager` | class `Manager` (the contents manager: store, bucket cache, clock) and class `Checkpoints` (the checkpoints class), with every stateful operation |

State that the source changes in place is held in class fields:

- the bucket cache `_bucket_cache`;
- the service's store;
- the service's clock, which stamps each upload.

Each method states its result and its new state, except where a line under "## Left out"
names it. The functions that specify them carry their own lemmas.

### Behaviour of the code worth knowing

- **Forbidden.** Only `_fetch` (jgscm/__init__.py:473-474) and `is_hidden` (212-213) catch
  it: the first reports the path as existing with nothing in it, the second as hidden.
  `file_exists`, `delete_file`, `_save_file`, `_save_notebook` and `list_checkpoints` let it
  propagate.
- **Delete.** `delete_file` lists the key exactly as given, without a trailing "/"
  (336-337), and recurses on the path with "/" and the listed folder appended (341-344),
  although each folder is already a full prefix from the bucket root. Both are reported
  under Findings.
- **Checkpoint listing.** `list_checkpoints` lists every direct object under the id-less
  checkpoint path (119-128). For a file `a`, that also lists the checkpoints of `ab.txt`.
- **Checkpoint ids.** `list_checkpoints` reads an id back as the last 36 characters before
  the extension of the blob's percent-encoded address (125-128). For a file without an
  extension below the bucket root, the last "." of that address is the one in the
  checkpoint directory's name (by default `.ipynb_checkpoints`): for the key
  `d/.ipynb_checkpoints/Makefile-<id>` the characters read back are not the id.
  `IdRecovered` proves the read-back for names with an extension.

## Model

| member | source | states |
|---|---|---|
| Paths.ParsePath | jgscm/__init__.py:436-443 | the bucket part never holds a "/", and a path without "/" is the bucket with the empty key |
| Paths.ParsePathSplit | jgscm/__init__.py:436-443 | splitting at the first "/" loses nothing: bucket + "/" + key gives the path back |
| Paths.ParsePathJoin | jgscm/__init__.py:436-443 | any bucket name without "/" joined to any key parses back into exactly that bucket and key |
| Paths.LastSegment | jgscm/__init__.py:452-460 | `rsplit("/", 1)[-1]` is a suffix without "/", and is the whole string or follows a "/" |
| Paths.LastSegmentAfterSlash | jgscm/__init__.py:452-460 | the last segment of "prefix/seg" is seg when seg holds no "/" |
| Paths.DirName | jgscm/__init__.py:456-460 | a directory's display name never holds a "/" |
| Paths.DirNameOfChild | jgscm/__init__.py:456-460 | "parent/seg/" and "parent/seg" are both named seg, so one trailing "/" does not change the name |
| Paths.BlobPathOfUrl | jgscm/__init__.py:445-450 | reading the path back from a blob's unescaped address "/b/<bucket>/o/<key>" gives "<bucket>/<key>", even when the key holds "/o/" |
| Paths.BlobNameOfUrl | jgscm/__init__.py:452-454 | the name read back from a blob's address is the last segment of its key |
| ObjectStore.SubPrefix | jgscm/__init__.py:484-491 | a sub-prefix of a listing extends the prefix by one segment and its "/", and is a prefix of the key grouped under it |
| ObjectStore.ListingPartition | jgscm/__init__.py:484-491 | a key under the prefix is a direct object of the listing exactly when it lies under none of its sub-prefixes |
| ObjectStore.SubPrefixShape | jgscm/__init__.py:484-491 | every listed sub-prefix ends in "/", adds one segment to the prefix, and has a stored key under it |
| ObjectStore.FolderShape | jgscm/__init__.py:491 | a reported folder is a full prefix from the bucket root, not a name, and adding the "/" back gives a listed sub-prefix |
| ObjectStore.MarkerIsListed | jgscm/__init__.py:477-492 | a directory marker is a direct object of its own listing, so the listing alone shows the directory exists |
| ObjectStore.LongerPrefixesShrink | jgscm/__init__.py:336-344 | the recursive delete terminates: the count of stored-key prefixes longer than the key strictly drops from a call to its recursive call |
| ObjectStore.QuoteSeparators | jgscm/__init__.py:124-127 | a percent-encoded blob address segment holds no "/" and gains no "." |
| ObjectStore.QuoteConcat | jgscm/__init__.py:124-127 | percent-encoding distributes over concatenation |
| ObjectStore.QuoteUnreserved | jgscm/__init__.py:124-127 | percent-encoding leaves letters, digits and "-_.~" alone |
| CheckpointNaming.Splitext | jgscm/__init__.py:141 | the stem and the extension give the name back, and a non-empty extension starts with the segment's last "." and holds no "/" |
| CheckpointNaming.CheckpointPathOf | jgscm/__init__.py:135-148 | the checkpoint of "<bucket>/<dir><base>" (with or without a leading "/") is "<bucket>/<dir><checkpoint_dir>/<name>-<id><ext>", with the checkpoint bucket in place of the file's bucket when one is set |
| CheckpointNaming.FileOfPath | jgscm/__init__.py:135-140 | the checkpoint path is built from the file's own key, and from the checkpoint bucket exactly when one is set |
| CheckpointNaming.CheckpointPrefixOf | jgscm/__init__.py:117-148 | the id-less form list_checkpoints lists is a prefix of the key of every checkpoint of the same path |
| CheckpointNaming.CheckpointPathParts | jgscm/__init__.py:135-148 | both forms share the bucket and the stem, and "-<id><ext>" follows the stem in the id form |
| CheckpointNaming.CheckpointIsListed | jgscm/__init__.py:117-148 | listing the id-less prefix in the checkpoint bucket finds each stored checkpoint of the file as a direct object, whatever the id (without "/") |
| CheckpointNaming.IdRecovered | jgscm/__init__.py:117-148 | list_checkpoints reads back the uuid of a checkpoint of a file whose name has an extension |
| CheckpointNaming.IdRecoveredFromKey | jgscm/__init__.py:124-127 | the id read back from the percent-encoded address of "<stem>-<uuid><ext>" is the uuid when the extension is not empty |
| CheckpointNaming.QuotedCheckpointAddress | jgscm/__init__.py:124-127 | the percent-encoded address of a checkpoint blob is the quoted stem, then "-<uuid>.", then the quoted extension |
| CheckpointNaming.StemBeforeExtension | jgscm/__init__.py:126 | splitext splits "<a><id>.<ext>" just after the id when neither the id nor the extension holds "." or "/" |
| CheckpointNaming.InsertNewestFirst | jgscm/__init__.py:131 | inserting into a newest-first list keeps it newest first and adds exactly the one entry |
| CheckpointNaming.SortNewestFirst | jgscm/__init__.py:131 | `sort(key=last_modified, reverse=True)` gives a newest-first permutation of the entries |
| Models.ReadFile | jgscm/__init__.py:515-538 | it fails exactly when "text" is asked for and the bytes are not UTF-8, with a 400 naming the blob's path; text comes back only as the UTF-8 decoding, and otherwise the base64 encoding is reported as "base64", with no format only after UTF-8 failed |
| Models.FileModel | jgscm/__init__.py:540-567 | a file model carries the blob's name and path, has content exactly when asked, fails exactly as _read_file does, keeps the blob's content type and otherwise takes the format's default mimetype |
| Models.NotebookModel | jgscm/__init__.py:569-588 | a notebook model has content exactly when asked, which is the parsed UTF-8 text in format "json"; bytes that are not UTF-8 fail when content is asked |
| Models.EncodeForSave | jgscm/__init__.py:640-660 | formats other than "text" and "base64" are a 400 without a path; "text" is the UTF-8 encoding or a 400 naming the path; "base64" succeeds only on ASCII content that decodes to the saved bytes |
| Models.TextRoundTrip | jgscm/__init__.py:640-660 | text saved with format "text" reads back as the same text, with "text" or no format asked |
| Models.Base64RoundTrip | jgscm/__init__.py:640-660 | base64 content saved with format "base64" stores the bytes it encodes, and reads back as the same string |
| Models.NonUtf8File | jgscm/__init__.py:526-538 | bytes that are not UTF-8 fail with a 400 naming the path when "text" is asked, and come back as base64 with no format |
| Models.SavedTextReadsBack | jgscm/__init__.py:540-567 | a text file saved and read with no format gives the same text, format "text" and the upload's content type |
| Models.SavedNotebookReadsBack | jgscm/__init__.py:569-588 | a notebook saved as _save_notebook writes it reads back as the same document in format "json" |
| Manager.MarkerMakesPresent | jgscm/__init__.py:679-680 | the marker blob "<key>/" _save_directory uploads makes the directory key exist |
| Manager.ListingShowsDirectory | jgscm/__init__.py:477-492 | for a directory key, "the listing finds objects or folders, or the key is empty" holds exactly when the key exists (a marker or anything under it) |
| Manager.WrapSaveError | jgscm/__init__.py:305-311 | an HTTP error raised while saving passes unchanged, and any other becomes a 500 naming the path |
| Manager.FilePathRoundTrip | jgscm/__init__.py:499-505 | the model of a file blob carries exactly the path `get` was asked for |
| Manager.DirectoryRequestKey | jgscm/__init__.py:250-255 | the path `get` fetches for a directory request has a directory key (empty or ending in "/") |
| Manager.SavePathKey | jgscm/__init__.py:282-285 | after save appends "/", a directory's key is a directory key |
| Manager.CheckpointEntries | jgscm/__init__.py:121-131 | the entries are newest first, one per listed blob: each entry (the id and stamp read from a blob) occurs exactly as often as there are listed blobs that give it |
| Manager.EntriesOfMembers | jgscm/__init__.py:125-128 | every listed blob's entry is in the list, and every element of the list is the entry of a listed blob |
| Manager.ChildPathAsWritten | jgscm/__init__.py:342-344 | the as-written recursion path stays in the same bucket, and its key extends the deleted key past the listed folder |
| Manager.NestedFolderSurvives | jgscm/__init__.py:335-344 | with "dir/sub/x" the only blob, deleting "bkt/dir/" deletes no direct object and recurses on key "dir/dir/sub", under which nothing lies, while the tree under "dir/" is not empty |
| Manager.SiblingDeleted | jgscm/__init__.py:335-338 | deleting "dir" lists the sibling "dir.txt" as a direct object, which the intended delete keeps |
| Manager.Manager.GetBucket | jgscm/__init__.py:412-434 | with caching on, a hit returns the cached handle and leaves the cache alone; a handle is cached only after a successful lookup; NotFound (and BadRequest with caching on) give None or re-raise with `throw`; Forbidden always raises; a handle comes back exactly when one can be had |
| Manager.Manager.Fetch | jgscm/__init__.py:462-497 | the root exists and lists every bucket; a forbidden bucket exists with nothing; a bucket that cannot be had does not; a directory key exists exactly when present, its members are its listing when content is asked; a cached bucket found gone is evicted; with content a file is its blob if stored; without content nothing is listed |
| Manager.Manager.IsHidden | jgscm/__init__.py:202-214 | the root and any bucket that can be had are not hidden; a missing, refused or (with caching on) invalid bucket is |
| Manager.Manager.FileExists | jgscm/__init__.py:216-232 | true exactly for a stored blob whose key is neither empty nor ends in "/"; a refused bucket raises Forbidden |
| Manager.Manager.DirExists | jgscm/__init__.py:234-242 | the root always exists; another path exists exactly when its key, with "/" appended, is present in a bucket that can be had, and a refused bucket "exists" |
| Manager.Manager.Get | jgscm/__init__.py:244-269 | a directory request naming another type is a 400; a directory request without one yields a model exactly when the directory is present and, with content, its bucket is not refused, and a missing directory is a 404; a directory model lists exactly what _dir_model selects, one entry for each selected file and folder; a file request is the notebook or file model of the stored blob, or a 404; the model's path is the request's, with "/" appended for directories |
| Manager.Manager.GetDirectory | jgscm/__init__.py:255-260 | the directory branch of get: a model listing the directory exactly when it is present and, with content, not in a refused bucket; a 404 when it is missing |
| Manager.Manager.FoundDirectory | jgscm/__init__.py:257-260 | the model of a directory _fetch found: it is built exactly when the directory is readable, and lists the directory |
| Manager.Manager.FoundListing | jgscm/__init__.py:257-260 | with content: a refused bucket brings no members to unpack and fails; any other present directory is listed |
| Manager.Manager.FoundEntry | jgscm/__init__.py:257-260 | without content a present directory always has a model |
| Manager.Manager.MembersShown | jgscm/__init__.py:463-493 | every entry the listing of a readable directory shows has a model: the buckets at the root, and below it the stored blobs and the folders |
| Manager.Manager.BucketShown | jgscm/__init__.py:463-466 | a stored bucket listed at the root is a present directory |
| Manager.Manager.BlobShown | jgscm/__init__.py:610-616 | a stored blob of a bucket that is not refused has a model, as a file or, for a key in directory form, as a present directory |
| Manager.Manager.FolderShown | jgscm/__init__.py:617-627 | a folder listed below a directory of a stored bucket is itself a present directory |
| Manager.Manager.FetchDirectory | jgscm/__init__.py:463-493 | a directory key is found exactly when it is present (the root, a refused bucket, or a marker or anything under the key); a present directory never makes it fail and a missing one is not found; the members it brings are the listing of the key |
| Manager.Manager.GetFile | jgscm/__init__.py:260-268 | the file branch of get: 404 when absent, otherwise the notebook model for type "notebook" or an untyped ".ipynb", else the file model |
| Manager.Manager.DirModel | jgscm/__init__.py:590-630 | the directory model has mimetype application/x-directory, no timestamps, and content exactly when asked; it is writable except at the root or, without members, over a hidden bucket; without content it fails only when is_hidden's lookup raises; with content a directory without members fails, and otherwise the model is format "json", lists exactly the selected files and folders, one entry each, and is built whenever each of them has a model |
| Manager.Manager.UnlistedDirModel | jgscm/__init__.py:604-608 | a directory fetched without members is writable exactly when its bucket can be had (is_hidden is false), cannot be listed with content, and without content fails only when the lookup raises |
| Manager.Manager.AddListing | jgscm/__init__.py:607-628 | the listing is added as content in format "json", nothing else of the model changes, and it succeeds whenever every listed file and folder has a model |
| Manager.Manager.ListMembers | jgscm/__init__.py:607-628 | the listing holds exactly the files and the folders _dir_model selects, one entry for each, each without content, and is built whenever each of them has a model |
| Manager.Manager.ListFiles | jgscm/__init__.py:610-616 | the files listed are exactly those other than the directory's own marker that should_list lets through, one entry per file, and the loop succeeds whenever each of them has a model |
| Manager.Manager.ListFolders | jgscm/__init__.py:617-627 | the folders listed are exactly those other than the directory's own key that should_list lets through, one entry per folder, each at "<bucket>/<folder>/" (at the root, the bucket name), and the loop succeeds whenever each of them is a present directory |
| Manager.Manager.GetEntry | jgscm/__init__.py:610-627 | the entry get makes without content carries the path it was asked for, and exists whenever the entry is a stored blob of a bucket that is not refused or a present directory |
| Manager.Manager.Upload | jgscm/__init__.py:661-662 | an upload replaces the blob at the key with the data, the content type and the current stamp, and advances the clock; a bucket that is gone answers NotFound and changes nothing |
| Manager.Manager.SaveFile | jgscm/__init__.py:640-663 | the bucket error, then the encoding error, come before any write; on success the encoded content sits at the key with content type text/plain and the upload's stamp, and nothing else changes |
| Manager.Manager.SaveNotebook | jgscm/__init__.py:632-638 | the notebook's UTF-8 JSON text is written at the key with the notebook content type, and nothing else changes; a refused bucket raises first |
| Manager.Manager.SaveDirectory | jgscm/__init__.py:665-680 | an existing directory leaves the store unchanged; at a bucket root the bucket is created; otherwise exactly one empty marker with content type application/x-directory is written at the key plus "/"; a missing bucket below its root is NotFound (BadRequest for a name that is not a bucket name); on success the bucket is stored and the directory exists |
| Manager.Manager.Save | jgscm/__init__.py:271-324 | a model without type, without content (not a directory) or at a bucket root (not a directory) is refused with 400, 400 or 403 before any state changes; every error it answers with is an HTTP error; a file save leaves exactly the encoded file and succeeds exactly when the bucket can be had, is stored and the content encodes; a directory save leaves the store as _save_directory does and succeeds exactly when it does; a successful notebook save leaves the notebook and at most its first checkpoint; the answer is the model of the saved path without content |
| Manager.Manager.SaveAccepted | jgscm/__init__.py:289-320 | an error of the dispatch that is not an HTTP error becomes a 500, and get of the saved path cannot fail after a successful dispatch, so every error is an HTTP error; a file save succeeds exactly when the bucket can be had, is stored and the content encodes, and a directory save exactly when _save_directory does; a successful notebook save leaves the notebook and at most its first checkpoint; the answer is get of the path without content |
| Manager.Manager.SaveContent | jgscm/__init__.py:289-304 | the dispatch by type: a file save as _save_file, succeeding exactly when the bucket can be had, is stored and the content encodes; a directory save with exactly the answer and store of _save_directory; a successful notebook save leaves the notebook and at most its first checkpoint; an unknown type an error with code 0 and no write; after any success, get of the path finds a model |
| Manager.Manager.StoredBlobShown | jgscm/__init__.py:244-269 | get of a stored blob's own path in a bucket that is not refused finds a model, as a file or, for a directory key, as the directory the blob makes present |
| Manager.Manager.PresentDirectoryShown | jgscm/__init__.py:244-255 | get of a present directory's own path, when its key is a directory key, finds a model |
| Manager.Manager.SaveNotebookChecked | jgscm/__init__.py:290-297 | a successful notebook save writes the notebook and, when it had no checkpoint, at most one more blob at its checkpoint key; afterwards list_checkpoints finds a checkpoint of the notebook, whether one existed or was created (for an id and a checkpoint bucket without "/") |
| Manager.Manager.DeleteFile | jgscm/__init__.py:326-344 | other buckets are untouched; a bucket root is deleted only when empty, with its cache entry (a crash with caching off); below the root only blobs whose key starts with the key are removed, on success every direct object of the key's listing is gone, nothing changes when nothing lies under the key, and exactly the direct objects go when the recursion finds nothing under the keys it visits |
| Manager.Manager.DeleteBelow | jgscm/__init__.py:335-344 | the listing's direct objects are deleted and each folder is recursed on as written, removing only keys under the key; nothing changes when nothing lies under the key, and exactly the direct objects go when the recursion finds nothing |
| Manager.Manager.DeleteListedOnly | jgscm/__init__.py:326-344 | delete_file below the root of a bucket that is not refused, when the as-written recursion finds nothing: it succeeds and removes exactly the direct objects of the key's listing |
| Manager.Manager.DeleteNestedAsWritten | jgscm/__init__.py:335-344 | delete_file("bkt/dir/") on a bucket whose only blob is "dir/sub/x" succeeds and leaves the store as it was |
| Manager.Manager.DeleteSiblingAsWritten | jgscm/__init__.py:335-344 | delete_file("bkt/dir") beside "dir.txt" and "dir/x" succeeds, removes "dir.txt" and keeps "dir/x" |
| Manager.Manager.RemoveEntry | jgscm/__init__.py:326-344 | the intended delete below a root removes exactly the entry and every blob under "<key>/", and nothing else |
| Manager.Manager.RemoveTree | jgscm/__init__.py:335-344 | recursing on each folder's own subtree removes exactly the blobs under the directory key |
| Manager.Checkpoints.ListCheckpoints | jgscm/__init__.py:117-133 | newest first; with the bucket at hand the entries of exactly the direct objects under the id-less checkpoint path, one per blob, or [] when the bucket is gone; a bucket that cannot be had raises (None.list_blobs, or the lookup's error) |
| Manager.Checkpoints.FetchCheckpoint | jgscm/__init__.py:73-77 | the blob at the checkpoint key, or a 404 naming the file's path; a checkpoint key in directory form is a 404 when absent and a crash when present, since `_fetch` then returns a listing that is not a blob |
| Manager.Checkpoints.GetFileCheckpoint | jgscm/__init__.py:62-83 | the checkpoint's content read with no format asked, or a 404 naming the path; for a checkpoint key in directory form a 404 when absent and a crash when present |
| Manager.Checkpoints.GetNotebookCheckpoint | jgscm/__init__.py:85-104 | the parsed UTF-8 text of the checkpoint, a crash on other bytes, or a 404 naming the path; for a checkpoint key in directory form a 404 when absent and a crash when present |
| Manager.Checkpoints.CreateFileCheckpoint | jgscm/__init__.py:32-45 | succeeds exactly when the bucket can be had and the content encodes; the entry is the id and the upload's stamp, and the store gains exactly the saved file at the checkpoint key |
| Manager.Checkpoints.CreateNotebookCheckpoint | jgscm/__init__.py:47-60 | the same for a notebook, saved with the notebook content type |
| Manager.Checkpoints.ReadBackFile | jgscm/__init__.py:244-269 | what `get(path, content=True)` gives create_checkpoint to upload is what the stored file gives: nothing for a directory request, a missing blob or a refused bucket |
| Manager.Checkpoints.WriteCheckpoint | jgscm/__init__.py:32-60 | a notebook or file checkpoint of the model read back, by its type: it succeeds exactly when the model gives something to upload and the checkpoint bucket can be had, and then writes exactly that blob at the checkpoint key |
| Manager.Checkpoints.CreateCheckpoint | jgscm/__init__.py:295-297 | the checkpoint save makes for a notebook without one: it succeeds exactly when the file reads back as a notebook or a file whose content encodes and the checkpoint bucket can be had; then the entry is the id and the stamp and the store gains exactly that upload at the checkpoint key; on failure nothing changes |
| Manager.Checkpoints.DeleteCheckpoint | jgscm/__init__.py:112-115 | only the checkpoint's bucket changes, only keys under the checkpoint key go, and on success the checkpoint itself is gone |

## Left out

- `rename_file` and `rename_checkpoint`: `rename_file` calls `get_blob()` without a key before any branch runs, so every call fails; its cross-bucket loop and its recursion are broken as well. A model of it would model only that failure.
- The gcloud client and authentication (`client`): the store is a value, a bucket lookup is `LookupBucket`, and `list_buckets`, `create_bucket` and the bucket deletion are updates of that value.
- The service's bucket-name rules: `ValidBucketName` keeps the length and the character set and leaves out the rest (IP-address forms, reserved prefixes, dot-separated component lengths). Bucket names are not globally unique across projects here.
- nbformat parsing and serialisation, `check_and_sign`, `mark_trusted_cells` and `validate_notebook_model`, and the validation message save attaches: a notebook document is its JSON text, and `notebookRead`/`notebookWrite` are uninterpreted functions.
- The UTF-8 and base64 codecs: uninterpreted functions. `CodecLaws` states the round trips the real codecs give, and only the lemmas that need them assume it.
- `url_unescape`: blob paths and names are computed on the unescaped address, which is taken to be the key itself. The percent-encoded address is modelled only where `list_checkpoints` reads the id from it.
- `uuid4`: the checkpoint id is a parameter. `datetime` stamps: an integer clock the service advances on each upload.
- `max_list_size` and `max_results`: listings are never truncated.
- Listing order: listings are sets, and the order of `_dir_model`'s entries is not stated.
- `list_checkpoints` sorts in place: it is modelled as `SortNewestFirst` on values. The order among equal stamps is not stated, since the listing has no order to begin with.
- The `debug_args` decorator, every `self.log` call and the pre- and post-save hooks. The post-save hook's failure is only logged.
- The HTTP messages: an HTTP error carries its code and, where the message names one, the path.
- `_fetch` for a file key without content returns the uncalled method `exists`, which is always true: the model reports the file present without asking the service.
- `_fetch`'s cache eviction with caching off: with caching off a bucket handle exists only for a stored bucket, so the listing can never find it gone.
- The unknown-type branch of save raises `HTTPError(00)`: it is modelled as an HTTP error with code 0.
- `create_checkpoint` of the generic checkpoints mixin is not part of this repository: `Manager.Checkpoints.CreateCheckpoint` reads the file with `get` and makes a notebook or file checkpoint of its content by its type, and any other type is a 500.
- The key "" of a file blob: keys are strings, and the model does not exclude blobs stored under the empty key.
- Manager.Manager.Save: for a notebook save, states the store only on success, as SaveNotebookChecked does, and does not state when the save succeeds.
- Manager.Manager.SaveAccepted: the same notebook gap as Save.
- Manager.Manager.SaveContent: the same notebook gap as Save.
- Manager.Manager.SaveNotebookChecked: the store is stated only on success; on a failed checkpoint the saved notebook stays without one, which is not stated.
- Manager.Manager.DeleteFile: states the exact remaining bucket only when nothing lies under the key or when the as-written recursion finds nothing under the keys it visits; otherwise it states which keys may go and that the key's direct objects are gone, since the recursion removes an input-dependent part of the tree (see Findings).
- Manager.Manager.DeleteBelow: the same as DeleteFile, for its part below the bucket root.
- Manager.Checkpoints.DeleteCheckpoint: states that deletion stays under the checkpoint key, not that only the checkpoint goes; other blobs under that key with no further "/" go too.
- Manager.Checkpoints.ListCheckpoints: states the listing of the id-less prefix, not that it holds only the file's own checkpoints; for a file "a" it also holds those of "ab.txt".
- Manager.Manager.ListMembers: states the set of listed paths, the number of entries and that no entry has content, not the order.

## Findings

| source | as written | input that shows it | evidently intended | confidence | as-written member | corrected member |
|---|---|---|---|---|---|---|
| jgscm/__init__.py:342-344 | delete_file recurses on the path plus the listed folder, which is already a full prefix from the bucket root | bucket "bkt" holding only "dir/sub/x"; delete_file("bkt/dir/") recurses on "bkt/dir/dir/sub", finds nothing, and "dir/sub/x" survives | recurse on each folder's own subtree, so the whole tree under the directory is deleted | high; not executed | Manager.NestedFolderSurvives | Manager.Manager.RemoveTree |
| jgscm/__init__.py:335-338 | delete_file lists the key as given, without a trailing "/", so the listing's direct objects include siblings whose names start with the directory's | bucket holding "dir.txt" and "dir/x"; delete_file("bkt/dir") deletes "dir.txt" | delete only the entry "dir" and what lies under "dir/" | high; not executed | Manager.SiblingDeleted | Manager.Manager.RemoveEntry |

`DeleteFile` and `DeleteCheckpoint` model delete_file as written, and `DeleteNestedAsWritten` and
`DeleteSiblingAsWritten` show both rows through `DeleteFile` itself. `RemoveEntry` and `RemoveTree` are
the corrected delete below a bucket root, with the exact resulting store proved.
