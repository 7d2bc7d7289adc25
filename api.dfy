/** The API's error vocabulary and its exception handler
    (backend/pathfinder_api/utils.py), which settings.py installs as REST framework's
    `EXCEPTION_HANDLER`. */
module Api {
  import opened Wrappers
  import opened Json

  /** The exceptions the views raise: `rest_framework.exceptions.ValidationError` and
      `NotFound`, and an uncaught `UserProfile.DoesNotExist`. */
  datatype ApiError =
    | ValidationError(detail: string)
    | NotFound(detail: string)
    | DoesNotExist

  /** The response REST framework's default `exception_handler` builds before the
      project's handler runs, as (status, body). A `ValidationError` with a string
      detail is status 400 and its body is that detail wrapped in a one-element list;
      a `NotFound` is status 404 with the body `{"detail": ...}`; `DoesNotExist` is
      not an API exception and gets no response. */
  function DefaultResponse(e: ApiError): (r: Option<(int, Json)>)
    ensures r.None? <==> e.DoesNotExist?
    ensures r.Some? ==> r.value.0 == (if e.ValidationError? then 400 else 404)
    ensures r.Some? ==> (HasDetail(r.value.1) <==> e.NotFound?)
    ensures r.Some? ==> MessageOf(r.value.1) == Some(JStr(e.detail))
  {
    match e
    case ValidationError(d) => Some((400, JArr([JStr(d)])))
    case NotFound(d) => Some((404, JObj(map["detail" := JStr(d)])))
    case DoesNotExist => None
  }

  /** The message a default-handler body carries, in either of its shapes: the
      `detail` entry of a dict, or the first item of a non-empty list. */
  function MessageOf(data: Json): Option<Json>
  {
    if HasDetail(data) then Some(data.fields["detail"])
    else if data.JArr? && data.items != [] then Some(data.items[0])
    else None
  }

  /** How a raised error ends: with a response, or as the server's 500. */
  datatype Outcome = Responded(statusCode: int, body: Json) | ServerError

  /** The HTTP status the client sees. */
  function FinalStatus(o: Outcome): int
  {
    if o.Responded? then o.statusCode else 500
  }

  /** A view's outcome: its reply, or the exception it raised. */
  datatype Result<T> = Success(value: T) | Failure(error: ApiError)

  /** The uniform error body the handler builds. */
  function Envelope(statusCode: int, message: Json): (body: Json)
    ensures body.JObj? && body.fields.Keys == {"status", "status_code", "message"}
    ensures body.fields["status"] == JStr("error")
    ensures body.fields["status_code"] == JNum(statusCode)
    ensures body.fields["message"] == message
  {
    JObj(map["status" := JStr("error"), "status_code" := JNum(statusCode), "message" := message])
  }

  /** Two envelopes are equal exactly when they carry the same code and message, so the
      envelope loses nothing of the two. */
  lemma EnvelopeInjective(c1: int, m1: Json, c2: int, m2: Json)
    ensures Envelope(c1, m1) == Envelope(c2, m2) <==> c1 == c2 && m1 == m2
  {
    if Envelope(c1, m1) == Envelope(c2, m2) {
      assert Envelope(c1, m1).fields["status_code"] == Envelope(c2, m2).fields["status_code"];
      assert Envelope(c1, m1).fields["message"] == Envelope(c2, m2).fields["message"];
    }
  }

  /** The response the framework's default handler produced. */
  class HttpResponse {
    var statusCode: int
    var data: Json

    constructor(statusCode0: int, data0: Json)
      ensures statusCode == statusCode0 && data == data0
    {
      statusCode := statusCode0;
      data := data0;
    }
  }

  /** Whether the handler's `response.data["detail"]` lookup succeeds. */
  predicate HasDetail(data: Json)
  {
    data.JObj? && "detail" in data.fields
  }

  /** `custom_exception_handler`, given the default handler's `response`. A missing
      response is passed through. Otherwise the body is replaced by a fresh dict with
      the three envelope keys assigned one by one; the HTTP status is kept. When the
      body has no `detail` key the lookup raises and `raised` is true, with the
      response untouched. */
  method CustomExceptionHandler(response: HttpResponse?) returns (r: HttpResponse?, raised: bool)
    modifies response
    ensures r == response
    ensures response != null ==> response.statusCode == old(response.statusCode)
    ensures raised <==> response != null && !HasDetail(old(response.data))
    ensures response != null && !raised ==>
      response.data == Envelope(response.statusCode, old(response.data).fields["detail"])
    ensures response != null && raised ==> response.data == old(response.data)
  {
    r := response;
    raised := false;
    if response != null {
      if !HasDetail(response.data) {
        raised := true;
        return;
      }
      var message := response.data.fields["detail"];
      response.data := JObj(map[]);
      response.data := JObj(response.data.fields["status" := JStr("error")]);
      response.data := JObj(response.data.fields["status_code" := JNum(response.statusCode)]);
      response.data := JObj(response.data.fields["message" := message]);
    }
  }

  /** What a raised error ends as with the handler as written: the default handler's
      response is handed to `CustomExceptionHandler`; a missing response is re-raised
      by the framework, and so is the handler's own failed `detail` lookup. */
  method Respond(e: ApiError) returns (o: Outcome)
    ensures o == AsWrittenOutcome(e)
  {
    var d := DefaultResponse(e);
    var response: HttpResponse? := null;
    if d.Some? {
      response := new HttpResponse(d.value.0, d.value.1);
    }
    var r, raised := CustomExceptionHandler(response);
    if r == null || raised {
      o := ServerError;
    } else {
      o := Responded(r.statusCode, r.data);
    }
  }

  /** The outcome `Respond` computes, on values. */
  function AsWrittenOutcome(e: ApiError): Outcome
  {
    match DefaultResponse(e)
    case None => ServerError
    case Some((code, data)) =>
      if HasDetail(data) then Responded(code, Envelope(code, data.fields["detail"]))
      else ServerError
  }

  /** With the handler as written only `NotFound` reaches the client as an envelope:
      a `ValidationError`'s list body has no `detail` key, so it ends as a 500 like
      `DoesNotExist`. */
  lemma AsWrittenOutcomes(e: ApiError)
    ensures e.ValidationError? ==> AsWrittenOutcome(e) == ServerError
    ensures e.NotFound? ==> AsWrittenOutcome(e) == Responded(404, Envelope(404, JStr(e.detail)))
    ensures e.DoesNotExist? ==> AsWrittenOutcome(e) == ServerError
    ensures FinalStatus(AsWrittenOutcome(e)) == (if e.NotFound? then 404 else 500)
  {
    var d := DefaultResponse(e);
    if d.Some? {
      assert HasDetail(d.value.1) <==> e.NotFound?;
    }
  }

  /** The handler as intended: the message is read from either body shape. */
  function IntendedOutcome(e: ApiError): Outcome
  {
    match DefaultResponse(e)
    case None => ServerError
    case Some((code, data)) =>
      match MessageOf(data)
      case Some(m) => Responded(code, Envelope(code, m))
      case None => ServerError
  }

  /** Every API exception reaches the client as the envelope of its own status and
      message; only `DoesNotExist` stays a 500. On `NotFound` and `DoesNotExist` the
      intended handler agrees with the one as written. */
  lemma IntendedOutcomes(e: ApiError)
    ensures e.ValidationError? ==> IntendedOutcome(e) == Responded(400, Envelope(400, JStr(e.detail)))
    ensures e.NotFound? ==> IntendedOutcome(e) == Responded(404, Envelope(404, JStr(e.detail)))
    ensures e.DoesNotExist? ==> IntendedOutcome(e) == ServerError
    ensures !e.ValidationError? ==> IntendedOutcome(e) == AsWrittenOutcome(e)
    ensures FinalStatus(IntendedOutcome(e)) == (match e
      case ValidationError(_) => 400
      case NotFound(_) => 404
      case DoesNotExist => 500)
  {
    var d := DefaultResponse(e);
    if d.Some? {
      assert MessageOf(d.value.1) == Some(JStr(e.detail));
      assert HasDetail(d.value.1) <==> e.NotFound?;
    }
  }
}
