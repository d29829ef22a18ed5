/**
 * What the handlers promise, stated over their specification functions: the 400 short-cut for
 * a null key, the statuses of an escaping key, conditional GET, whole-file replace, delete, the
 * PUT/GET round trip, and confinement of every change to the store directory.
 */
module StoreProperties {
  import opened Common
  import opened KeyResolver
  import opened MimeTypes
  import opened Responses
  import opened StoreHandler

  /** The file a request names: its key, resolved against the store directory; None where either step fails. */
  function PathOf(root: string, pathInfo: Option<string>): (p: Option<string>)
    requires IsCanonicalRoot(root)
    ensures p.Some? ==> Inside(root, p.value)
    ensures p.Some? <==> GetPathInfoKey(pathInfo).Some? && FileForKey(root, GetPathInfoKey(pathInfo).value).Some?
  {
    match GetPathInfoKey(pathInfo)
    case None => None
    case Some(key) => FileForKey(root, key)
  }

  /** A null key is answered 400 "Bad request" by every verb, and no file changes. */
  lemma NullKeyIsBadRequest(root: string, files: Files, pathInfo: Option<string>, ifModifiedSince: DateHeader,
                            registry: Option<string>, wantBody: bool, body: seq<byte>, bodyBreaks: bool,
                            openFails: bool, now: int, deleteSucceeds: bool)
    requires IsCanonicalRoot(root) && GetPathInfoKey(pathInfo).None?
    ensures GetHead(root, files, pathInfo, ifModifiedSince, registry, wantBody) == Sent(SC_BAD_REQUEST, "Bad request")
    ensures Put(root, files, pathInfo, body, bodyBreaks, openFails, now) == (Sent(SC_BAD_REQUEST, "Bad request"), files)
    ensures Delete(root, files, pathInfo, deleteSucceeds) == (Sent(SC_BAD_REQUEST, "Bad request"), files)
  {
  }

  /**
   * A whitelisted key that resolves outside the store directory: GET and HEAD answer 404 (the
   * FileNotFoundException handler), PUT and DELETE answer 400 (the generic handlers); nothing changes.
   */
  lemma EscapingKeyStatus(root: string, files: Files, pathInfo: Option<string>, ifModifiedSince: DateHeader,
                          registry: Option<string>, wantBody: bool, body: seq<byte>, bodyBreaks: bool,
                          openFails: bool, now: int, deleteSucceeds: bool)
    requires IsCanonicalRoot(root) && GetPathInfoKey(pathInfo).Some? && PathOf(root, pathInfo).None?
    ensures GetHead(root, files, pathInfo, ifModifiedSince, registry, wantBody) == Sent(SC_NOT_FOUND, "Not Found")
    ensures Put(root, files, pathInfo, body, bodyBreaks, openFails, now) == (Sent(SC_BAD_REQUEST, "Bad request"), files)
    ensures Delete(root, files, pathInfo, deleteSucceeds) == (Sent(SC_BAD_REQUEST, "Bad request"), files)
  {
  }

  /** The path infos "/", "/." and "/.." pass the whitelist but name the store directory or its parent: no file is touched. */
  lemma {:induction false} DotPathsNeverResolve(root: string, pathInfo: string)
    requires IsCanonicalRoot(root) && pathInfo in ["/", "/.", "/.."]
    ensures GetPathInfoKey(Some(pathInfo)).Some? && PathOf(root, Some(pathInfo)).None?
  {
    var key := pathInfo[1..];
    assert key == "" || key == "." || key == "..";
    GetPathInfoKeyAccepts(key);
    assert [Separator] + key == pathInfo;
  }

  /** A path info with a separator after the first character, like "/../../etc/passwd", has no key at all. */
  lemma {:induction false} NestedPathHasNoKey(pathInfo: string, i: nat)
    requires 0 < i < |pathInfo| && pathInfo[i] == Separator
    ensures GetPathInfoKey(Some(pathInfo)).None?
  {
    var rest := if pathInfo[0] == Separator then pathInfo[1..] else pathInfo;
    var j := if pathInfo[0] == Separator then i - 1 else i;
    assert rest[j] == Separator;
    assert !IsSafeChar(rest[j]);
  }

  /** GET or HEAD of a key with no regular file answers 404 "Not Found", whatever the headers. */
  lemma GetAbsentIsNotFound(root: string, files: Files, pathInfo: Option<string>, ifModifiedSince: DateHeader,
                            registry: Option<string>, wantBody: bool)
    requires IsCanonicalRoot(root) && PathOf(root, pathInfo).Some? && PathOf(root, pathInfo).value !in files
    ensures GetHead(root, files, pathInfo, ifModifiedSince, registry, wantBody) == Sent(SC_NOT_FOUND, "Not Found")
  {
  }

  /**
   * Conditional GET on an existing file: 304 with Content-Length 0 and no body exactly when the header
   * holds a positive date no earlier than the file's modification time; otherwise 200 with the file's
   * length, its modification time, and the bytes for GET only.
   */
  lemma {:induction false} ConditionalGet(root: string, files: Files, pathInfo: Option<string>, ifModifiedSince: DateHeader,
                                          registry: Option<string>, wantBody: bool)
    requires IsCanonicalRoot(root) && PathOf(root, pathInfo).Some? && PathOf(root, pathInfo).value in files
    requires !ifModifiedSince.Malformed?
    ensures var f := files[PathOf(root, pathInfo).value];
            var r := GetHead(root, files, pathInfo, ifModifiedSince, registry, wantBody);
            && (r.status == SC_NOT_MODIFIED <==> DateValue(ifModifiedSince) > 0 && f.lastModified <= DateValue(ifModifiedSince))
            && (r.status == SC_NOT_MODIFIED ==> r.contentLength == Some(0) && r.body == Empty)
            && (r.status != SC_NOT_MODIFIED ==>
                  && r.status == SC_OK && r.contentLength == Some(|f.content|) && r.lastModified == Some(f.lastModified)
                  && r.cache == LightCache
                  && r.contentType == ContentTypeFor(registry, GetPathInfoKey(pathInfo).value)
                  && r.body == (if wantBody then Data(f.content) else Empty))
  {
    assert NotModified.status == SC_NOT_MODIFIED;
  }

  /** Without the header, or with a date of 0, an existing file is never answered 304. */
  lemma NoDateNeverNotModified(root: string, files: Files, pathInfo: Option<string>, registry: Option<string>, wantBody: bool)
    requires IsCanonicalRoot(root) && PathOf(root, pathInfo).Some? && PathOf(root, pathInfo).value in files
    ensures GetHead(root, files, pathInfo, Absent, registry, wantBody).status == SC_OK
    ensures GetHead(root, files, pathInfo, Date(0), registry, wantBody).status == SC_OK
  {
  }

  /** A malformed If-Modified-Since on an existing file makes getDateHeader throw: 400. */
  lemma MalformedDateIsBadRequest(root: string, files: Files, pathInfo: Option<string>, registry: Option<string>, wantBody: bool)
    requires IsCanonicalRoot(root) && PathOf(root, pathInfo).Some? && PathOf(root, pathInfo).value in files
    ensures GetHead(root, files, pathInfo, Malformed, registry, wantBody) == Sent(SC_BAD_REQUEST, "Bad request")
  {
  }

  /**
   * PUT on a resolvable key whose file opens: the file's content becomes exactly the body (replace, not
   * append), and every other file is as it was. The answer is 200 "updated" unless the body's connection broke.
   */
  lemma PutReplacesOnlyItsFile(root: string, files: Files, pathInfo: Option<string>, body: seq<byte>, bodyBreaks: bool, now: int)
    requires IsCanonicalRoot(root) && PathOf(root, pathInfo).Some?
    ensures var p := PathOf(root, pathInfo).value;
            var (r, files') := Put(root, files, pathInfo, body, bodyBreaks, false, now);
            && p in files' && files'[p] == FileEntry(body, now)
            && files'.Keys == files.Keys + {p}
            && (forall q | q in files && q != p :: files'[q] == files[q])
            && r == (if bodyBreaks then Sent(SC_BAD_REQUEST, "Bad request") else Sent(SC_OK, "updated"))
  {
  }

  /** PUT whose file cannot be opened for writing answers 400 and writes nothing. */
  lemma PutOpenFailureChangesNothing(root: string, files: Files, pathInfo: Option<string>, body: seq<byte>, bodyBreaks: bool, now: int)
    requires IsCanonicalRoot(root)
    ensures Put(root, files, pathInfo, body, bodyBreaks, true, now) == (Sent(SC_BAD_REQUEST, "Bad request"), files)
  {
  }

  /** The second of two PUTs decides the content alone; the same PUT twice is the same PUT once. */
  lemma PutTwice(root: string, files: Files, pathInfo: Option<string>, b1: seq<byte>, t1: int, b2: seq<byte>, t2: int)
    requires IsCanonicalRoot(root)
    ensures Put(root, Put(root, files, pathInfo, b1, false, false, t1).1, pathInfo, b2, false, false, t2).1
         == Put(root, files, pathInfo, b2, false, false, t2).1
    ensures Put(root, Put(root, files, pathInfo, b1, false, false, t1).1, pathInfo, b1, false, false, t1)
         == Put(root, files, pathInfo, b1, false, false, t1)
  {
    var p := PathOf(root, pathInfo);
    if p.Some? {
      var e1, e2 := FileEntry(b1, t1), FileEntry(b2, t2);
      assert files[p.value := e1][p.value := e2] == files[p.value := e2];
      assert files[p.value := e1][p.value := e1] == files[p.value := e1];
    }
  }

  /** PUT then GET without a date header returns exactly the bytes put, with their length. */
  lemma PutThenGet(root: string, files: Files, pathInfo: Option<string>, body: seq<byte>, now: int, registry: Option<string>)
    requires IsCanonicalRoot(root) && PathOf(root, pathInfo).Some?
    ensures Put(root, files, pathInfo, body, false, false, now).0 == Sent(SC_OK, "updated")
    ensures var r := GetHead(root, Put(root, files, pathInfo, body, false, false, now).1, pathInfo, Absent, registry, true);
            r.status == SC_OK && r.body == Data(body) && r.contentLength == Some(|body|) && r.lastModified == Some(now)
  {
  }

  /** DELETE of a key with no regular file answers 404 "Not Found" and changes nothing. */
  lemma DeleteAbsentIsNotFound(root: string, files: Files, pathInfo: Option<string>, deleteSucceeds: bool)
    requires IsCanonicalRoot(root) && PathOf(root, pathInfo).Some? && PathOf(root, pathInfo).value !in files
    ensures Delete(root, files, pathInfo, deleteSucceeds) == (Sent(SC_NOT_FOUND, "Not Found"), files)
  {
  }

  /** DELETE of an existing file: 200 "deleted" and exactly that file gone, or 400 and nothing gone when File.delete fails. */
  lemma DeleteExisting(root: string, files: Files, pathInfo: Option<string>, deleteSucceeds: bool)
    requires IsCanonicalRoot(root) && PathOf(root, pathInfo).Some? && PathOf(root, pathInfo).value in files
    ensures var p := PathOf(root, pathInfo).value;
            var (r, files') := Delete(root, files, pathInfo, deleteSucceeds);
            if deleteSucceeds then r == Sent(SC_OK, "deleted") && files'.Keys == files.Keys - {p}
                                   && (forall q | q in files' :: files'[q] == files[q])
            else r == Sent(SC_BAD_REQUEST, "Bad request") && files' == files
  {
  }

  /** PUT, then DELETE, then GET: the GET answers 404, and a second DELETE does too. */
  lemma PutDeleteGet(root: string, files: Files, pathInfo: Option<string>, body: seq<byte>, now: int,
                     registry: Option<string>, wantBody: bool, deleteSucceeds: bool)
    requires IsCanonicalRoot(root) && PathOf(root, pathInfo).Some?
    ensures var afterPut := Put(root, files, pathInfo, body, false, false, now).1;
            var (r, afterDelete) := Delete(root, afterPut, pathInfo, true);
            && r == Sent(SC_OK, "deleted")
            && GetHead(root, afterDelete, pathInfo, Absent, registry, wantBody) == Sent(SC_NOT_FOUND, "Not Found")
            && Delete(root, afterDelete, pathInfo, deleteSucceeds) == (Sent(SC_NOT_FOUND, "Not Found"), afterDelete)
  {
  }

  /** The files a map holds outside the store directory. */
  function Outside(root: string, files: Files): Files {
    map q | q in files && !Inside(root, q) :: files[q]
  }

  /** No request, however its key is spelled and whatever the outcomes, creates, changes or removes a file outside the store directory. */
  lemma {:induction false} ConfinedToStoreDir(root: string, files: Files, pathInfo: Option<string>, body: seq<byte>,
                                              bodyBreaks: bool, openFails: bool, now: int, deleteSucceeds: bool)
    requires IsCanonicalRoot(root)
    ensures Outside(root, Put(root, files, pathInfo, body, bodyBreaks, openFails, now).1) == Outside(root, files)
    ensures Outside(root, Delete(root, files, pathInfo, deleteSucceeds).1) == Outside(root, files)
  {
    var p := PathOf(root, pathInfo);
    if p.Some? {
      assert Inside(root, p.value);
    }
  }

  /** The bytes of "hello". */
  const Hello: seq<byte> := [104, 101, 108, 108, 111]

  /** The key of "/report.md" and its content type. */
  lemma ReportKey()
    ensures GetPathInfoKey(Some("/report.md")) == Some("report.md")
    ensures MimeType("report.md") == Some("text/markdown")
  {
    var key := "report.md";
    assert IsSafeURLString(key);
    GetPathInfoKeyAccepts(key);
    assert [Separator] + key == "/report.md";
    assert EndsWith(key, ".md");
    assert !EndsWith(key, ".properties") && !EndsWith(key, ".yaml") && !EndsWith(key, ".yml") && !EndsWith(key, ".json");
  }

  /** PUT /report.md "hello" answers updated; GET returns the bytes as text/markdown; DELETE answers deleted; GET then answers 404. */
  lemma ReportExample(root: string, files: Files, now: int)
    requires IsCanonicalRoot(root) && root != [Separator]
    ensures var (r1, f1) := Put(root, files, Some("/report.md"), Hello, false, false, now);
            var r2 := GetHead(root, f1, Some("/report.md"), Absent, None, true);
            var (r3, f3) := Delete(root, f1, Some("/report.md"), true);
            && r1 == Sent(SC_OK, "updated") && DecodeEnvelope(r1.body.text) == Some((false, "updated"))
            && r2.status == SC_OK && r2.body == Data(Hello) && r2.contentType == Some("text/markdown")
            && r3 == Sent(SC_OK, "deleted")
            && GetHead(root, f3, Some("/report.md"), Absent, None, true) == Sent(SC_NOT_FOUND, "Not Found")
  {
    var pathInfo := Some("/report.md");
    ReportKey();
    assert PathOf(root, pathInfo).Some?;
    PutThenGet(root, files, pathInfo, Hello, now, None);
    PutDeleteGet(root, files, pathInfo, Hello, now, None, true, true);
    ConditionalGet(root, Put(root, files, pathInfo, Hello, false, false, now).1, pathInfo, Absent, None, true);
  }
}
