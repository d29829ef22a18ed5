# SimpleStore in Dafny

A model of `SimpleStoreServlet`, an idempotent key/value store served over HTTP. Each key is one
file directly inside a fixed store directory, and the value is the file's bytes: PUT creates or
replaces it, GET and HEAD read it, and DELETE removes it. The model covers:

- **Key validation and resolution** (module `KeyResolver`). The `[A-Za-z0-9._-]` whitelist is a loop
  proved equal to its predicate. `GetPathInfoKey` strips exactly one leading `/`. `FileForKey`
  resolves the key against the canonical store directory and keeps the result only when it
  starts with the directory followed by `/`. Canonicalisation is lexical for keys without separators:
  `""` and `"."` give the directory itself, `".."` its parent, and any other key gives the child. It is
  proved that an accepted path always lies strictly below the directory. It is also proved that
  exactly the keys `""`, `"."` and `".."` are turned away, although the whitelist lets all three through.
  When the store directory is `/` itself, the prefix tested is `//`, and so every key is turned away
  (the first `ensures` of `FileForKey`).
- **The JSON envelope and the content-type fallback** (modules `Responses` and `MimeTypes`).
  The envelope `{"status":"…","message":"…"}` plus CRLF is decoded back to its status word and
  message, and its length always fits the builder's initial capacity of `36 + |msg|`. The suffix
  chain of `getMimeType` is proved equal to a first-match table lookup. Its suffixes are proved
  mutually exclusive, so the order in which they are tested is immaterial.
- **The chunked copy** (module `Streams`). An input stream hands out between 1 and 4096 bytes per
  read, -1 at end of stream, or an `IOException` if its connection breaks. `CopyStream` is proved to
  write exactly the remaining input, in order, in chunks of at most 4096 bytes. It flushes exactly
  once, and only when it reached end of stream.
- **The verb handlers** (module `StoreHandler`). `GetHead`, `Put` and `Delete` are functions from the
  directory's regular files (a map from canonical path to bytes and modification time) and the
  request's inputs to the response and the new files. The servlet class implements the handlers
  step by step, using `SendResponse` and `CopyStream` over a mutable `FileStore`, and each method is
  proved equal to its function. Module `StoreProperties` proves the protocol over these functions:
  conditional GET, replace-not-append, round trips, delete, and the fact that no request ever
  creates, changes or removes a file outside the store directory.

Outcomes that the handlers only observe are parameters. These are the container's MIME registry
answer, the `If-Modified-Since` header (absent, unparsable, or a date), whether opening a file for
writing fails, whether `File.delete` succeeds, whether the request body's connection breaks, and the
clock that stamps a written file.

Two behaviours of the code that a reader may not expect:

- A key that canonicalises outside the store directory is answered with a "Not Found" envelope by
  GET/HEAD, because that `FileNotFoundException` is caught at line 166. PUT and DELETE answer it with
  "Bad request", through their generic handlers at lines 200 and 230. It is not 404 throughout.
- The HTTP status line of an envelope response is never set, so it stays 200 (see Findings). The
  handlers of the model (`GetHead`, `Put`, `Delete` and the three servlet methods) answer through the
  corrected `Sent` and `SendResponse`, whose status line carries the code. Every 400 and 404 that
  module `StoreProperties` proves is therefore the status of the corrected program. In the code as
  written those responses carry status 200, and only the envelope's status word, which is the same in
  both, says "error".

## Model

| member | source | states |
|---|---|---|
| `KeyResolver.CheckSafeURLString` | src/main/java/org/javastack/simplestore/SimpleStoreServlet.java:323-343 | the loop answers true iff every character is in `[A-Za-z0-9._-]` (true for the empty string), and false only when some character is outside it |
| `KeyResolver.SafeHasNoSeparator` | src/main/java/org/javastack/simplestore/SimpleStoreServlet.java:323-343 | a whitelisted string contains no `/` |
| `KeyResolver.GetPathInfoKey` | src/main/java/org/javastack/simplestore/SimpleStoreServlet.java:311-321 | null or empty path info gives null; a non-null key is whitelisted, has no `/`, and is the path info itself or the path info without one leading `/` |
| `KeyResolver.GetPathInfoKeyAccepts` | src/main/java/org/javastack/simplestore/SimpleStoreServlet.java:311-321 | every whitelisted key is extracted from `"/" + key`, and also from the bare key when it is not empty; in particular `"/"` gives the empty key |
| `KeyResolver.DoubleSeparatorRejected` | src/main/java/org/javastack/simplestore/SimpleStoreServlet.java:316-319 | only one `/` is stripped: a path info starting `//` gives null |
| `KeyResolver.LastSeparator` | src/main/java/org/javastack/simplestore/SimpleStoreServlet.java:237 | finds the position of the last `/`, with no `/` after it (used to name the parent directory) |
| `KeyResolver.Canonical` | src/main/java/org/javastack/simplestore/SimpleStoreServlet.java:237 | the canonical file of `storeDir/key`: the directory itself for `""` and `"."`, a prefix of it (its parent) for `".."`, and otherwise a longer path that starts with the directory and ends with `/key` |
| `KeyResolver.Parent` | src/main/java/org/javastack/simplestore/SimpleStoreServlet.java:237 | the canonical form of `dir/..` is a prefix of the directory, strictly shorter unless the directory is `/` |
| `KeyResolver.CanonicalContainment` | src/main/java/org/javastack/simplestore/SimpleStoreServlet.java:237-241 | the canonical path passes the `storeDir + "/"` prefix test iff the key is not `""`, `"."` or `".."` and the store directory is not `/` |
| `KeyResolver.FileForKey` | src/main/java/org/javastack/simplestore/SimpleStoreServlet.java:236-245 | a path is returned iff the key is a proper name and the directory is not `/`; a returned path is `storeDir + "/" + key` and lies strictly inside the store directory; otherwise FileNotFoundException |
| `KeyResolver.FileForKeyInverse` | src/main/java/org/javastack/simplestore/SimpleStoreServlet.java:236-245 | the key is recovered from its file as the text after the store directory and the separator |
| `KeyResolver.FileForKeyInjective` | src/main/java/org/javastack/simplestore/SimpleStoreServlet.java:236-245 | two keys resolving to the same file are the same key |
| `KeyResolver.DotKeysEscape` | src/main/java/org/javastack/simplestore/SimpleStoreServlet.java:236-242 | `""`, `"."` and `".."` pass the whitelist, canonicalise to the store directory or its parent, and are rejected |
| `MimeTypes.LookupFrom` | src/main/java/org/javastack/simplestore/SimpleStoreServlet.java:345-355 | reference first-match lookup in a suffix table: no type iff no suffix from the start position matches; a returned type is that of a matching suffix with no matching suffix before it |
| `MimeTypes.MimeType` | src/main/java/org/javastack/simplestore/SimpleStoreServlet.java:345-355 | the `getMimeType` chain (`.properties`, `.yaml`/`.yml`, `.json`, `.md`, else null) equals the first-match lookup of that table |
| `MimeTypes.SuffixesExclusive` | src/main/java/org/javastack/simplestore/SimpleStoreServlet.java:345-355 | no name ends with two different suffixes of the table |
| `MimeTypes.MimeTypeBySuffix` | src/main/java/org/javastack/simplestore/SimpleStoreServlet.java:345-355 | `getMimeType` gives type t iff the name ends with a suffix whose type is t |
| `MimeTypes.ContentTypeFor` | src/main/java/org/javastack/simplestore/SimpleStoreServlet.java:149-155 | the registry's answer wins when there is one, and otherwise the type is `getMimeType`'s; no content type is set iff the registry has none and no fallback suffix matches |
| `Responses.EnvelopeText` | src/main/java/org/javastack/simplestore/SimpleStoreServlet.java:300-303 | the envelope's length is 28 + the message length + the word length, and never more than the builder's initial capacity `36 + msg.length()` |
| `Responses.DecodeEnvelopeText` | src/main/java/org/javastack/simplestore/SimpleStoreServlet.java:300-303 | every envelope decodes back to its status word and its message, whatever the message holds |
| `Responses.DecodedIsEnvelope` | src/main/java/org/javastack/simplestore/SimpleStoreServlet.java:300-303 | only envelopes decode: a text that decodes is exactly the envelope of its status word and message |
| `Responses.EnvelopeTextInjective` | src/main/java/org/javastack/simplestore/SimpleStoreServlet.java:300-303 | different words or messages give different envelopes |
| `Responses.Sent` | src/main/java/org/javastack/simplestore/SimpleStoreServlet.java:298-309 | the envelope response, with the status set (corrected): type `application/json`, Content-Length equal to the body's length, no-cache headers, and a body that decodes to ("error" iff 400 ≤ status ≤ 599, msg) |
| `Responses.SentAsWritten` | src/main/java/org/javastack/simplestore/SimpleStoreServlet.java:298-309 | sendResponse as written: the same body and length, but the status line keeps the container default, 200 |
| `Responses.AsWrittenErrorsTravelAs200` | src/main/java/org/javastack/simplestore/SimpleStoreServlet.java:298-309 | as written, the "Not Found" and "Bad request" envelopes go out under status 200, while the body says "error" |
| `Responses.SendResponse` | src/main/java/org/javastack/simplestore/SimpleStoreServlet.java:298-309 | building the envelope by successive appends yields exactly the corrected envelope response |
| `Streams.InputStream.Read` | src/main/java/org/javastack/simplestore/SimpleStoreServlet.java:280 | at end of input, -1 or IOException; otherwise between 1 and the buffer length of the next bytes, copied into the buffer in order |
| `Streams.OutputStream.Write` | src/main/java/org/javastack/simplestore/SimpleStoreServlet.java:283 | one write appends `b[off..off+len]` to what was written and records it as one chunk |
| `Streams.OutputStream.Flush` | src/main/java/org/javastack/simplestore/SimpleStoreServlet.java:285 | a flush writes nothing and is counted once |
| `Streams.CopyStream` | src/main/java/org/javastack/simplestore/SimpleStoreServlet.java:277-286 | the output receives exactly the remaining input in order, every write is 1..4096 bytes, the input is drained, and there is one flush iff read reached -1 (none after an IOException) |
| `StoreHandler.GetHead` | src/main/java/org/javastack/simplestore/SimpleStoreServlet.java:126-180 | doGetHead as a function of the files and the request: the status is 200, 304, 400 or 404; a 200 names an existing regular file and carries its length and, for GET only, its bytes |
| `StoreHandler.Put` | src/main/java/org/javastack/simplestore/SimpleStoreServlet.java:183-208 | doPut as a function: the answer is 200 or 400; no file is removed; every file created or changed lies inside the store directory and holds exactly the body and the write time; a 200 means the body arrived whole and was stored |
| `StoreHandler.Delete` | src/main/java/org/javastack/simplestore/SimpleStoreServlet.java:211-234 | doDelete as a function: the answer is 200, 400 or 404; no file is created or changed; a removed file lies inside the store directory; the answer is 200 iff a file was removed |
| `StoreHandler.SimpleStoreServlet.DoGetHead` | src/main/java/org/javastack/simplestore/SimpleStoreServlet.java:126-180 | the imperative handler (with the streamed body) answers exactly `GetHead` of the current files |
| `StoreHandler.SimpleStoreServlet.DoPut` | src/main/java/org/javastack/simplestore/SimpleStoreServlet.java:183-208 | the imperative handler's response and new files are exactly `Put` of the old files and the body the stream delivers |
| `StoreHandler.SimpleStoreServlet.DoDelete` | src/main/java/org/javastack/simplestore/SimpleStoreServlet.java:211-234 | the imperative handler's response and new files are exactly `Delete` of the old files |
| `StoreProperties.NullKeyIsBadRequest` | src/main/java/org/javastack/simplestore/SimpleStoreServlet.java:126-234 | a null key gives "Bad request" from GET, HEAD, PUT and DELETE (lines 128-134, 186-191, 214-219), with no file changed |
| `StoreProperties.EscapingKeyStatus` | src/main/java/org/javastack/simplestore/SimpleStoreServlet.java:126-234 | a whitelisted key that does not resolve gives "Not Found" for GET/HEAD and "Bad request" for PUT and DELETE, with no file changed |
| `StoreProperties.DotPathsNeverResolve` | src/main/java/org/javastack/simplestore/SimpleStoreServlet.java:311-321 | `/`, `/.` and `/..` yield a key that fileForKey rejects |
| `StoreProperties.NestedPathHasNoKey` | src/main/java/org/javastack/simplestore/SimpleStoreServlet.java:311-321 | a path info with a `/` after its first character, such as `/../../etc/passwd`, yields no key |
| `StoreProperties.GetAbsentIsNotFound` | src/main/java/org/javastack/simplestore/SimpleStoreServlet.java:138-141 | GET/HEAD of a resolvable key without a regular file gives "Not Found", whatever the headers |
| `StoreProperties.ConditionalGet` | src/main/java/org/javastack/simplestore/SimpleStoreServlet.java:142-165 | on an existing file: 304 iff `ifModifiedSince > 0 && lastModified <= ifModifiedSince`, and then Content-Length 0 without a body; otherwise 200 with the file length, Last-Modified, light cache, the chosen content type, and the bytes for GET only |
| `StoreProperties.NoDateNeverNotModified` | src/main/java/org/javastack/simplestore/SimpleStoreServlet.java:142-143 | an absent header (-1) or a date of 0 never gives 304 |
| `StoreProperties.MalformedDateIsBadRequest` | src/main/java/org/javastack/simplestore/SimpleStoreServlet.java:142 | an unparsable If-Modified-Since on an existing file gives "Bad request" |
| `StoreProperties.PutReplacesOnlyItsFile` | src/main/java/org/javastack/simplestore/SimpleStoreServlet.java:194-199 | PUT makes the file's content exactly the body (overwrite, not append), leaves every other file as it was, and answers "updated" unless the body's connection broke |
| `StoreProperties.PutOpenFailureChangesNothing` | src/main/java/org/javastack/simplestore/SimpleStoreServlet.java:197-203 | when the file cannot be opened for writing, PUT answers "Bad request" and changes nothing |
| `StoreProperties.PutTwice` | src/main/java/org/javastack/simplestore/SimpleStoreServlet.java:194-199 | after two PUTs only the second body counts; the same PUT twice has the effect of one |
| `StoreProperties.PutThenGet` | src/main/java/org/javastack/simplestore/SimpleStoreServlet.java:138-199 | PUT then GET answers 200 with exactly the bytes put, their length and the write time |
| `StoreProperties.DeleteAbsentIsNotFound` | src/main/java/org/javastack/simplestore/SimpleStoreServlet.java:221-225 | DELETE of a resolvable key without a regular file gives "Not Found" and changes nothing |
| `StoreProperties.DeleteExisting` | src/main/java/org/javastack/simplestore/SimpleStoreServlet.java:226-233 | DELETE of an existing file answers "deleted" and removes exactly that file, or, when File.delete fails, answers "Bad request" and removes nothing |
| `StoreProperties.PutDeleteGet` | src/main/java/org/javastack/simplestore/SimpleStoreServlet.java:138-234 | PUT, then DELETE ("deleted"), then GET answers "Not Found", and a second DELETE also answers "Not Found" |
| `StoreProperties.ConfinedToStoreDir` | src/main/java/org/javastack/simplestore/SimpleStoreServlet.java:236-245 | no PUT or DELETE, whatever its path info and outcomes, creates, changes or removes a file outside the store directory |
| `StoreProperties.ReportKey` | src/main/java/org/javastack/simplestore/SimpleStoreServlet.java:345-355 | the path info `/report.md` yields the key `report.md`, whose fallback content type is `text/markdown` |
| `StoreProperties.ReportExample` | src/main/java/org/javastack/simplestore/SimpleStoreServlet.java:126-234 | PUT `/report.md` "hello" answers updated; GET returns the bytes typed `text/markdown`; DELETE answers deleted; GET then answers "Not Found" |

## Left out

- `init`, `getConfig` and `destroy`: the store directory comes from servlet context, system properties, environment or a classpath file, which are foreign calls. The model takes the canonical directory as the servlet's constructor argument.
- `useAIO`: the Tomcat sendfile path is container plumbing. The model always streams the body itself.
- `closeQuietly`, logging, the `PrintWriter` and its character encoding: these are I/O with no effect on the modelled state. The envelopes are ASCII, so their character count is their byte count.
- `setNoCache` and `setLightCache` are modelled as two constant header pairs.
- The container's MIME registry and the parsing of the HTTP date header are parameters.
- FileForKey: canonicalisation is lexical, so symbolic links under the store directory are not followed. Keys holding a separator are never passed to it, because the whitelist excludes them.
- DoGetHead: a failure while the body is copied to the client (for example a disconnect after the headers are set) is not modelled. Neither is any failure of `openInput`, such as a file that vanishes after `isFile` or a regular file that cannot be read: the code answers those with "Not Found" for GET (line 166), while HEAD, which never opens the file, answers 200.
- DoPut: only two failures are modelled, a file that cannot be opened for writing and a request body that breaks. A failing write to the file (for example a full disk) is not modelled, nor is a file's modification time that differs from the single clock reading `now`.
- Only regular files are modelled. A directory entry in the store directory shows up only as the `openFails` outcome of PUT and as "not a file" for GET and DELETE.
- Concurrent requests on one key race at the filesystem with no synchronisation. Each handler is modelled as one atomic step.
- StoreHandler.GetHead: its 400 and 404 answers carry that code in the status line (the corrected `Sent`); the code as written sends them with status 200 (see Findings).
- StoreHandler.Put: its 400 answers carry status 400 (the corrected `Sent`); the code as written sends them with status 200.
- StoreHandler.Delete: its 400 and 404 answers carry that code in the status line (the corrected `Sent`); the code as written sends them with status 200.
- StoreHandler.SimpleStoreServlet.DoGetHead: answers through the corrected `SendResponse`, so its error responses carry their code, where the code as written sends 200.
- StoreHandler.SimpleStoreServlet.DoPut: answers through the corrected `SendResponse`, so its error responses carry their code, where the code as written sends 200.
- StoreHandler.SimpleStoreServlet.DoDelete: answers through the corrected `SendResponse`, so its error responses carry their code, where the code as written sends 200.
- HEAD responses: suppressing envelope bodies is the container's job and is not modelled.

## Findings

| source | as written | input that shows it | evidently intended | confidence | as-written member | corrected member |
|---|---|---|---|---|---|---|
| src/main/java/org/javastack/simplestore/SimpleStoreServlet.java:298-309 | `sendResponse` puts `status` only into the JSON word and never calls `response.setStatus`, so the status line stays at the default 200 | GET `/missing`: the HTTP status is 200, with body `{"status":"error","message":"Not Found"}`; the same holds for every "Bad request" | the status line carries the code passed in (400, 404 or 200), as the constants `SC_BAD_REQUEST` and `SC_NOT_FOUND` indicate | high, not executed | `Responses.SentAsWritten`, `Responses.AsWrittenErrorsTravelAs200` | `Responses.Sent`, `Responses.SendResponse` |
