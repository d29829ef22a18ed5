/**
 * The verb handlers of the servlet. Each handler is specified by a function from the
 * directory's regular files (by canonical path) and the request's inputs to the response and
 * the new files; the servlet class implements them step by step over a mutable file store.
 *
 * Outcomes of the filesystem and of the container that the handlers only observe are inputs:
 * the container's MIME answer, whether opening a file for writing fails, whether File.delete
 * succeeds, whether the request body's connection breaks, and the clock.
 */
module StoreHandler {
  import opened Common
  import opened KeyResolver
  import opened MimeTypes
  import opened Responses
  import opened Streams

  /** A regular file: its bytes and its modification time in milliseconds. */
  datatype FileEntry = FileEntry(content: seq<byte>, lastModified: int)

  /** The regular files of the filesystem, by canonical path. */
  type Files = map<string, FileEntry>

  /** The If-Modified-Since header as getDateHeader sees it: absent (-1), unparsable (it throws), or a date. */
  datatype DateHeader = Absent | Malformed | Date(millis: int)

  /** getDateHeader's value for a header it can parse. */
  function DateValue(h: DateHeader): (v: int)
    requires !h.Malformed?
  {
    if h.Date? then h.millis else -1
  }

  /** The conditional-GET test: the client holds a positive date no earlier than the file's modification. */
  predicate NotModifiedSince(f: FileEntry, ifModifiedSince: int) {
    ifModifiedSince > 0 && f.lastModified <= ifModifiedSince
  }

  /** doGetHead: the response to GET (wantBody) or HEAD. The files are left as they are. */
  function GetHead(root: string, files: Files, pathInfo: Option<string>, ifModifiedSince: DateHeader,
                   registry: Option<string>, wantBody: bool): (r: Response)
    requires IsCanonicalRoot(root)
    ensures r.status in {SC_OK, SC_NOT_MODIFIED, SC_BAD_REQUEST, SC_NOT_FOUND}
    ensures r.status == SC_OK ==>
              && GetPathInfoKey(pathInfo).Some? && FileForKey(root, GetPathInfoKey(pathInfo).value).Some?
              && var path := FileForKey(root, GetPathInfoKey(pathInfo).value).value;
                 && path in files && r.contentLength == Some(|files[path].content|)
                 && r.body == (if wantBody then Data(files[path].content) else Empty)
  {
    match GetPathInfoKey(pathInfo)
    case None => Sent(SC_BAD_REQUEST, "Bad request")
    case Some(key) =>
      match FileForKey(root, key)
      case None => Sent(SC_NOT_FOUND, "Not Found")
      case Some(path) =>
        if path !in files then Sent(SC_NOT_FOUND, "Not Found")
        else if ifModifiedSince.Malformed? then Sent(SC_BAD_REQUEST, "Bad request")
        else
          var f := files[path];
          if NotModifiedSince(f, DateValue(ifModifiedSince)) then NotModified
          else Response(SC_OK, ContentTypeFor(registry, key), Some(|f.content|), Some(f.lastModified), LightCache,
                        if wantBody then Data(f.content) else Empty)
  }

  /**
   * doPut: the response and the files after writing the request body. Opening the file truncates
   * it, so a body whose connection breaks leaves the bytes that arrived and answers 400.
   */
  function Put(root: string, files: Files, pathInfo: Option<string>, body: seq<byte>, bodyBreaks: bool,
               openFails: bool, now: int): (r: (Response, Files))
    requires IsCanonicalRoot(root)
    ensures r.0.status == SC_OK || r.0.status == SC_BAD_REQUEST
    ensures files.Keys <= r.1.Keys
    ensures forall q | q in r.1 && (q !in files || r.1[q] != files[q]) :: Inside(root, q) && r.1[q] == FileEntry(body, now)
    ensures r.0.status == SC_OK ==> !bodyBreaks && FileEntry(body, now) in r.1.Values
  {
    match GetPathInfoKey(pathInfo)
    case None => (Sent(SC_BAD_REQUEST, "Bad request"), files)
    case Some(key) =>
      match FileForKey(root, key)
      case None => (Sent(SC_BAD_REQUEST, "Bad request"), files)
      case Some(path) =>
        if openFails then (Sent(SC_BAD_REQUEST, "Bad request"), files)
        else
          var written := files[path := FileEntry(body, now)];
          if bodyBreaks then (Sent(SC_BAD_REQUEST, "Bad request"), written)
          else (Sent(SC_OK, "updated"), written)
  }

  /** doDelete: the response and the files after deleting; a failed delete or an escaping key falls through to 400. */
  function Delete(root: string, files: Files, pathInfo: Option<string>, deleteSucceeds: bool): (r: (Response, Files))
    requires IsCanonicalRoot(root)
    ensures r.0.status in {SC_OK, SC_BAD_REQUEST, SC_NOT_FOUND}
    ensures r.1.Keys <= files.Keys && forall q | q in r.1 :: r.1[q] == files[q]
    ensures forall q | q in files && q !in r.1 :: Inside(root, q)
    ensures r.0.status == SC_OK <==> r.1 != files
  {
    match GetPathInfoKey(pathInfo)
    case None => (Sent(SC_BAD_REQUEST, "Bad request"), files)
    case Some(key) =>
      match FileForKey(root, key)
      case None => (Sent(SC_BAD_REQUEST, "Bad request"), files)
      case Some(path) =>
        if path !in files then (Sent(SC_NOT_FOUND, "Not Found"), files)
        else if deleteSucceeds then (Sent(SC_OK, "deleted"), files - {path})
        else (Sent(SC_BAD_REQUEST, "Bad request"), files)
  }

  /** The filesystem the servlet works on. */
  class FileStore {
    var files: Files

    constructor (files: Files)
      ensures this.files == files
    {
      this.files := files;
    }
  }

  /** The servlet: the canonical store directory fixed at init, and the three handlers. */
  class SimpleStoreServlet {
    const storeDir: string

    ghost predicate Valid() {
      IsCanonicalRoot(storeDir)
    }

    constructor (storeDir: string)
      requires IsCanonicalRoot(storeDir)
      ensures Valid() && this.storeDir == storeDir
    {
      this.storeDir := storeDir;
    }

    /** doGet (wantBody) and doHead; the file's bytes reach the response through CopyStream. */
    method DoGetHead(fs: FileStore, pathInfo: Option<string>, ifModifiedSince: DateHeader,
                     registry: Option<string>, wantBody: bool) returns (resp: Response)
      requires Valid()
      ensures resp == GetHead(storeDir, fs.files, pathInfo, ifModifiedSince, registry, wantBody)
    {
      var key := GetPathInfoKey(pathInfo);
      if key.None? {
        resp := SendResponse(SC_BAD_REQUEST, "Bad request");
        return;
      }
      var f := FileForKey(storeDir, key.value);
      if f.None? || f.value !in fs.files {
        resp := SendResponse(SC_NOT_FOUND, "Not Found");
        return;
      }
      if ifModifiedSince.Malformed? {
        resp := SendResponse(SC_BAD_REQUEST, "Bad request");
        return;
      }
      var entry := fs.files[f.value];
      var ims := DateValue(ifModifiedSince);
      if ims > 0 && entry.lastModified <= ims {
        resp := NotModified;
        return;
      }
      var mimeType := registry;
      if mimeType.None? {
        mimeType := MimeType(key.value);
      }
      resp := Initial.(contentType := mimeType, lastModified := Some(entry.lastModified), cache := LightCache,
                       contentLength := Some(|entry.content|));
      if wantBody {
        var input := new InputStream(entry.content, false);
        var output := new OutputStream();
        var _ := CopyStream(input, output);
        assert output.Written() == entry.content[0..] == entry.content;
        resp := resp.(body := Data(output.Written()));
      }
    }

    /** doPut: the request body is copied into the file named by the key. */
    method DoPut(fs: FileStore, pathInfo: Option<string>, input: InputStream, openFails: bool, now: int)
      returns (resp: Response)
      requires Valid() && input.Valid()
      modifies fs, input
      ensures input.Valid()
      ensures (resp, fs.files) == Put(storeDir, old(fs.files), pathInfo, old(input.Remaining()), input.breaks, openFails, now)
    {
      var key := GetPathInfoKey(pathInfo);
      if key.None? {
        resp := SendResponse(SC_BAD_REQUEST, "Bad request");
        return;
      }
      var f := FileForKey(storeDir, key.value);
      if f.None? || openFails {
        resp := SendResponse(SC_BAD_REQUEST, "Bad request");
        return;
      }
      var output := new OutputStream();
      ghost var body := input.Remaining();
      var ok := CopyStream(input, output);
      assert output.Written() == body;
      fs.files := fs.files[f.value := FileEntry(output.Written(), now)];
      if !ok {
        resp := SendResponse(SC_BAD_REQUEST, "Bad request");
        return;
      }
      resp := SendResponse(SC_OK, "updated");
    }

    /** doDelete */
    method DoDelete(fs: FileStore, pathInfo: Option<string>, deleteSucceeds: bool) returns (resp: Response)
      requires Valid()
      modifies fs
      ensures (resp, fs.files) == Delete(storeDir, old(fs.files), pathInfo, deleteSucceeds)
    {
      var key := GetPathInfoKey(pathInfo);
      if key.None? {
        resp := SendResponse(SC_BAD_REQUEST, "Bad request");
        return;
      }
      var f := FileForKey(storeDir, key.value);
      if f.Some? {
        if f.value !in fs.files {
          resp := SendResponse(SC_NOT_FOUND, "Not Found");
          return;
        }
        if deleteSucceeds {
          fs.files := fs.files - {f.value};
          resp := SendResponse(SC_OK, "deleted");
          return;
        }
      }
      resp := SendResponse(SC_BAD_REQUEST, "Bad request");
    }
  }
}
