/** The content models the manager hands to Jupyter, and how a file's bytes are read into
    one (_read_file, _file_model, _notebook_model) or a saved file's content is turned into
    bytes (_save_file's format dispatch). The codecs themselves are foreign: they are
    uninterpreted function values here, and only the dispatch around them is modelled. */
module Models {
  import opened Results
  import opened Paths
  import opened ObjectStore

  /** The foreign codecs. utf8Decode is bytes.decode("utf8") (None on UnicodeError);
      utf8Encode is str.encode("utf8") (None when it raises); base64Encode is
      base64.encodebytes(b).decode("ascii"); base64Decode is base64.decodebytes of an ASCII
      string (None when it raises); notebookRead and notebookWrite are nbformat.reads and
      nbformat.writes, with a notebook document written as its JSON text. */
  datatype Codecs = Codecs(
    utf8Decode: seq<Byte> -> Option<string>,
    utf8Encode: string -> Option<seq<Byte>>,
    base64Encode: seq<Byte> -> string,
    base64Decode: string -> Option<seq<Byte>>,
    notebookRead: string -> string,
    notebookWrite: string -> string)

  /** What the real codecs guarantee and the round trips below rely on: decoding undoes
      encoding, and reading a written notebook gives the document back. */
  ghost predicate CodecLaws(c: Codecs) {
    && (forall s :: c.utf8Encode(s).Some? ==> c.utf8Decode(c.utf8Encode(s).value) == Some(s))
    && (forall b :: c.base64Decode(c.base64Encode(b)) == Some(b))
    && (forall d :: c.notebookRead(c.notebookWrite(d)) == d)
  }

  datatype Format = Text | Base64 | Json

  datatype Kind = File | Notebook | Directory

  datatype Content =
    | NoContent
    | FileText(text: string)
    | NotebookDoc(doc: string)
    | Listing(entries: seq<ContentModel>)

  /** A contents model. Timestamps are the blob's `updated` stamp (None for directories,
      whose timestamps are ""); writable is Python truthiness. */
  datatype ContentModel = ContentModel(
    kind: Kind,
    name: string,
    path: string,
    lastModified: Option<int>,
    created: Option<int>,
    content: Content,
    format: Option<Format>,
    mimetype: Option<string>,
    writable: bool)

  /** _get_blob_path of a blob handle. */
  function BlobPathOf(ref: BlobRef): string {
    GetBlobPath(BlobUrlPath(ref.bucket, ref.key))
  }

  /** _get_blob_name of a blob handle. */
  function BlobNameOf(ref: BlobRef): string {
    GetBlobName(BlobUrlPath(ref.bucket, ref.key))
  }

  predicate IsAscii(s: string) {
    forall i :: 0 <= i < |s| ==> s[i] as int < 128
  }

  /** _read_file: with format "text" or none, decode as UTF-8; if that fails, an explicit
      "text" is a 400 naming the blob's path and no format falls back to base64; any other
      format is base64. */
  function ReadFile(c: Codecs, blobPath: string, data: seq<Byte>, format: Option<string>): (r: Result<(string, Format)>)
    ensures r.Err? <==> format == Some("text") && c.utf8Decode(data).None?
    ensures r.Err? ==> r.error == Http(400, blobPath)
    ensures r.Ok? && r.value.1 == Text ==>
              (format == None || format == Some("text")) && c.utf8Decode(data) == Some(r.value.0)
    ensures r.Ok? && r.value.1 != Text ==>
              r.value == (c.base64Encode(data), Base64)
              && (format == None ==> c.utf8Decode(data).None?)
    ensures r.Ok? ==> r.value.1 != Json
  {
    if format == None || format == Some("text") then
      match c.utf8Decode(data)
      case Some(s) => Ok((s, Text))
      case None =>
        if format == Some("text") then Err(Http(400, blobPath))
        else Ok((c.base64Encode(data), Base64))
    else
      Ok((c.base64Encode(data), Base64))
  }

  /** The mimetype _file_model gives when the blob has none. */
  function DefaultMime(f: Format): string {
    if f == Text then "text/plain" else "application/octet-stream"
  }

  /** _base_model with the type set. */
  function BaseModel(kind: Kind, ref: BlobRef, blob: Blob): ContentModel {
    ContentModel(kind, BlobNameOf(ref), BlobPathOf(ref), Some(blob.updated), Some(blob.updated),
                 NoContent, None, blob.contentType, true)
  }

  /** _file_model. */
  function FileModel(c: Codecs, ref: BlobRef, blob: Blob, content: bool, format: Option<string>): (r: Result<ContentModel>)
    ensures r.Ok? ==> r.value.kind == File && r.value.path == BlobPathOf(ref) && r.value.name == BlobNameOf(ref)
    ensures r.Ok? ==> (r.value.content == NoContent <==> !content)
    ensures r.Err? <==> content && format == Some("text") && c.utf8Decode(blob.data).None?
    ensures r.Ok? && blob.contentType.Some? ==> r.value.mimetype == blob.contentType
    ensures r.Ok? && content && blob.contentType.None? ==>
              r.value.format.Some? && r.value.mimetype == Some(DefaultMime(r.value.format.value))
    ensures r.Ok? && content ==>
              r.value.format.Some? && r.value.content.FileText?
              && ReadFile(c, BlobPathOf(ref), blob.data, format) == Ok((r.value.content.text, r.value.format.value))
  {
    var base := BaseModel(File, ref, blob);
    if !content then Ok(base)
    else
      match ReadFile(c, BlobPathOf(ref), blob.data, format)
      case Err(e) => Err(e)
      case Ok((text, f)) =>
        var mime := if blob.contentType.None? then Some(DefaultMime(f)) else blob.contentType;
        Ok(base.(content := FileText(text), format := Some(f), mimetype := mime))
  }

  /** _notebook_model: the content is the parsed document, format "json". A blob that is not
      UTF-8 raises UnicodeDecodeError, which nothing catches. */
  function NotebookModel(c: Codecs, ref: BlobRef, blob: Blob, content: bool): (r: Result<ContentModel>)
    ensures r.Ok? ==> r.value.kind == Notebook && r.value.path == BlobPathOf(ref)
    ensures r.Ok? ==> (r.value.content == NoContent <==> !content)
    ensures r.Err? <==> content && c.utf8Decode(blob.data).None?
    ensures r.Ok? && content ==>
              r.value.format == Some(Json)
              && r.value.content == NotebookDoc(c.notebookRead(c.utf8Decode(blob.data).value))
  {
    var base := BaseModel(Notebook, ref, blob);
    if !content then Ok(base)
    else
      match c.utf8Decode(blob.data)
      case None => Err(Crash)
      case Some(text) => Ok(base.(content := NotebookDoc(c.notebookRead(text)), format := Some(Json)))
  }

  /** _save_file's conversion of the model's content to bytes: only "text" and "base64" are
      accepted (400 otherwise, naming no path); an encoding failure is a 400 naming the path. */
  function EncodeForSave(c: Codecs, path: string, content: string, format: Option<string>): (r: Result<seq<Byte>>)
    ensures format != Some("text") && format != Some("base64") ==> r == Err(Http(400, ""))
    ensures format == Some("text") ==>
              r == if c.utf8Encode(content).Some? then Ok(c.utf8Encode(content).value) else Err(Http(400, path))
    ensures format == Some("base64") && r.Ok? ==> IsAscii(content) && c.base64Decode(content) == Some(r.value)
    ensures format == Some("base64") && r.Err? ==> r.error == Http(400, path)
  {
    if format != Some("text") && format != Some("base64") then Err(Http(400, ""))
    else if format == Some("text") then
      match c.utf8Encode(content)
      case Some(b) => Ok(b)
      case None => Err(Http(400, path))
    else if !IsAscii(content) then Err(Http(400, path))
    else
      match c.base64Decode(content)
      case Some(b) => Ok(b)
      case None => Err(Http(400, path))
  }

  /** Text saved with format "text" reads back as the same text, whether "text" or no
      format is asked for. */
  lemma TextRoundTrip(c: Codecs, path: string, blobPath: string, s: string, asked: Option<string>)
    requires CodecLaws(c)
    requires EncodeForSave(c, path, s, Some("text")).Ok?
    requires asked == None || asked == Some("text")
    ensures ReadFile(c, blobPath, EncodeForSave(c, path, s, Some("text")).value, asked) == Ok((s, Text))
  {
    var b := c.utf8Encode(s).value;
    assert c.utf8Decode(b) == Some(s);
  }

  /** Content produced by base64.encodebytes, saved with format "base64", reads back with
      format "base64" as the same string. */
  lemma Base64RoundTrip(c: Codecs, path: string, blobPath: string, data: seq<Byte>)
    requires CodecLaws(c)
    requires IsAscii(c.base64Encode(data))
    ensures EncodeForSave(c, path, c.base64Encode(data), Some("base64")) == Ok(data)
    ensures ReadFile(c, blobPath, data, Some("base64")) == Ok((c.base64Encode(data), Base64))
  {
    assert c.base64Decode(c.base64Encode(data)) == Some(data);
  }

  /** A file whose bytes are not UTF-8 fails with a 400 naming its path when "text" is asked
      for, and comes back as base64 when no format is. */
  lemma NonUtf8File(c: Codecs, ref: BlobRef, blob: Blob)
    requires c.utf8Decode(blob.data).None?
    ensures FileModel(c, ref, blob, true, Some("text")) == Err(Http(400, BlobPathOf(ref)))
    ensures FileModel(c, ref, blob, true, None).Ok?
    ensures FileModel(c, ref, blob, true, None).value.format == Some(Base64)
    ensures FileModel(c, ref, blob, true, None).value.content == FileText(c.base64Encode(blob.data))
  {
  }

  /** A file saved with format "text" reads back, by the model `get` builds with content
      and no format, as the same text with the content type the upload gave it. */
  lemma SavedTextReadsBack(c: Codecs, path: string, ref: BlobRef, s: string, stamp: int)
    requires CodecLaws(c)
    requires EncodeForSave(c, path, s, Some("text")).Ok?
    ensures var blob := Blob(EncodeForSave(c, path, s, Some("text")).value, Some(UploadDefaultMime), stamp);
      FileModel(c, ref, blob, true, None) ==
      Ok(BaseModel(File, ref, blob).(content := FileText(s), format := Some(Text)))
  {
    TextRoundTrip(c, path, BlobPathOf(ref), s, None);
  }

  /** A notebook saved as _save_notebook writes it reads back as the same document. */
  lemma SavedNotebookReadsBack(c: Codecs, ref: BlobRef, doc: string, stamp: int)
    requires CodecLaws(c)
    requires c.utf8Encode(c.notebookWrite(doc)).Some?
    ensures var blob := Blob(c.utf8Encode(c.notebookWrite(doc)).value, Some(NotebookMime), stamp);
      NotebookModel(c, ref, blob, true) ==
      Ok(BaseModel(Notebook, ref, blob).(content := NotebookDoc(doc), format := Some(Json)))
  {
    var text := c.notebookWrite(doc);
    assert c.utf8Decode(c.utf8Encode(text).value) == Some(text);
  }
}
