/**
 * What a handler leaves in the servlet response, and the JSON status envelope that every
 * non-data answer carries.
 */
module Responses {
  import opened Common

  /** The Cache-Control and Pragma pair a response carries. */
  datatype CacheHeaders =
    | Unset
    | NoCache     // "private, no-cache, no-store" and "no-cache"
    | LightCache  // "must-revalidate, max-age=1" and "no-cache"

  /** The response payload: nothing, the envelope text, or the bytes of a file. */
  datatype Body = Empty | Json(text: string) | Data(bytes: seq<byte>)

  /** The parts of an HttpServletResponse the handlers set. */
  datatype Response = Response(
    status: int,
    contentType: Option<string>,
    contentLength: Option<nat>,
    lastModified: Option<int>,
    cache: CacheHeaders,
    body: Body)

  const SC_OK := 200
  const SC_NOT_MODIFIED := 304
  const SC_BAD_REQUEST := 400
  const SC_NOT_FOUND := 404

  const JsonType := "application/json"

  /** A response the container has not been told anything about: status 200, no headers, no body. */
  const Initial := Response(SC_OK, None, None, None, Unset, Empty)

  /** The envelope's status word is "error" exactly for the codes 400..599. */
  predicate IsErrorStatus(status: int) {
    400 <= status <= 599
  }

  /** The envelope text for a status word and a message; the message is not escaped. */
  function EnvelopeText(error: bool, msg: string): (t: string)
    ensures |t| == 28 + |msg| + (if error then 5 else 7)
    ensures |t| <= 36 + |msg|
  {
    "{\"status\":\"" + (if error then "error" else "success") + "\",\"message\":\"" + msg + "\"}\r\n"
  }

  const ErrorHead := "{\"status\":\"error\",\"message\":\""
  const SuccessHead := "{\"status\":\"success\",\"message\":\""
  const Tail := "\"}\r\n"

  /** Reads an envelope back: its status word and its message, or None for any other text. */
  function DecodeEnvelope(t: string): (d: Option<(bool, string)>) {
    if |t| >= |ErrorHead| + |Tail| && StartsWith(t, ErrorHead) && EndsWith(t, Tail) then
      Some((true, t[|ErrorHead|..|t| - |Tail|]))
    else if |t| >= |SuccessHead| + |Tail| && StartsWith(t, SuccessHead) && EndsWith(t, Tail) then
      Some((false, t[|SuccessHead|..|t| - |Tail|]))
    else None
  }

  /** Every envelope decodes to the word and the message it was built from, whatever the message holds. */
  lemma {:induction false} DecodeEnvelopeText(error: bool, msg: string)
    ensures DecodeEnvelope(EnvelopeText(error, msg)) == Some((error, msg))
  {
    var t := EnvelopeText(error, msg);
    var head := if error then ErrorHead else SuccessHead;
    assert t == head + msg + Tail;
    assert t[..|head|] == head;
    assert t[|t| - |Tail|..] == Tail;
    assert t[|head|..|t| - |Tail|] == msg;
    if !error {
      assert t[11] == 's' && ErrorHead[11] == 'e';
      assert !StartsWith(t, ErrorHead);
    }
  }

  /** The envelope is its head, the message and the tail. */
  lemma EnvelopePieces(error: bool, msg: string)
    ensures EnvelopeText(error, msg) == (if error then ErrorHead else SuccessHead) + msg + Tail
  {
  }

  /** A text that starts with a head and ends with a tail, not overlapping, is head, middle and tail. */
  lemma SplitAround(t: string, head: string, tail: string)
    requires |t| >= |head| + |tail| && StartsWith(t, head) && EndsWith(t, tail)
    ensures t == head + t[|head|..|t| - |tail|] + tail
  {
    assert t == t[..|head|] + t[|head|..|t| - |tail|] + t[|t| - |tail|..];
  }

  /** Only envelopes decode: a text that decodes is the envelope of its word and message. */
  lemma {:induction false} DecodedIsEnvelope(t: string)
    requires DecodeEnvelope(t).Some?
    ensures EnvelopeText(DecodeEnvelope(t).value.0, DecodeEnvelope(t).value.1) == t
  {
    if |t| >= |ErrorHead| + |Tail| && StartsWith(t, ErrorHead) && EndsWith(t, Tail) {
      var msg := t[|ErrorHead|..|t| - |Tail|];
      assert DecodeEnvelope(t) == Some((true, msg));
      SplitAround(t, ErrorHead, Tail);
      EnvelopePieces(true, msg);
    } else {
      var msg := t[|SuccessHead|..|t| - |Tail|];
      assert DecodeEnvelope(t) == Some((false, msg));
      SplitAround(t, SuccessHead, Tail);
      EnvelopePieces(false, msg);
    }
  }

  /** Two envelopes are equal only if their words and messages are. */
  lemma EnvelopeTextInjective(e1: bool, m1: string, e2: bool, m2: string)
    requires EnvelopeText(e1, m1) == EnvelopeText(e2, m2)
    ensures e1 == e2 && m1 == m2
  {
    DecodeEnvelopeText(e1, m1);
    DecodeEnvelopeText(e2, m2);
  }

  /**
   * The envelope response as intended: the status line carries `status`, and the body is the
   * envelope, typed application/json, with a Content-Length of its own length and no-cache headers.
   */
  function Sent(status: int, msg: string): (r: Response)
    ensures r.status == status && r.contentType == Some(JsonType) && r.cache == NoCache && r.lastModified.None?
    ensures r.body.Json? && r.contentLength == Some(|r.body.text|)
    ensures DecodeEnvelope(r.body.text) == Some((IsErrorStatus(status), msg))
  {
    var t := EnvelopeText(IsErrorStatus(status), msg);
    DecodeEnvelopeText(IsErrorStatus(status), msg);
    Response(status, Some(JsonType), Some(|t|), None, NoCache, Json(t))
  }

  /**
   * sendResponse as written: it sets the type, the length and the cache headers and prints the
   * envelope, but never sets the status, so the status line keeps the container's default.
   */
  function SentAsWritten(status: int, msg: string): (r: Response)
    ensures r.status == Initial.status
    ensures r.body == Sent(status, msg).body && r.contentLength == Sent(status, msg).contentLength
  {
    Sent(status, msg).(status := Initial.status)
  }

  /** As written, a "Not Found" or "Bad request" envelope travels under an HTTP 200 status line. */
  lemma AsWrittenErrorsTravelAs200()
    ensures SentAsWritten(SC_NOT_FOUND, "Not Found").status == SC_OK
    ensures SentAsWritten(SC_BAD_REQUEST, "Bad request").status == SC_OK
    ensures DecodeEnvelope(SentAsWritten(SC_NOT_FOUND, "Not Found").body.text) == Some((true, "Not Found"))
  {
  }

  /** sendResponse, corrected to set the status: the envelope is appended piece by piece into a builder. */
  method SendResponse(status: int, msg: string) returns (r: Response)
    ensures r == Sent(status, msg)
  {
    var sb: string := "{\"status\":\"";
    sb := sb + (if status >= 400 && status <= 599 then "error" else "success");
    sb := sb + "\",\"message\":\"";
    sb := sb + msg;
    sb := sb + "\"}\r\n";
    r := Initial.(status := status, contentType := Some(JsonType), contentLength := Some(|sb|), cache := NoCache, body := Json(sb));
  }

  /** The 304 answer: no body, a zero Content-Length and the short-lived cache headers. */
  const NotModified := Initial.(status := SC_NOT_MODIFIED, contentLength := Some(0), cache := LightCache)
}
