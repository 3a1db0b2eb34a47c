/**
 * The POST handler of app/api/schedule/route.ts: it forwards the request to
 * the remote scheduling service and turns what comes back into the reply to
 * the browser. The network exchange is an `Upstream` value and `JSON.parse`
 * is a function parameter; what is modelled is the decision logic: the
 * transport-error messages, the error-body classification, the
 * status-to-message table, the error payload and the success-body check.
 */
module ScheduleRoute {
  import opened Wrappers
  import opened JsValues
  import Text

  /** What the upstream `fetch` produced. `body` is none when reading the response text failed. */
  datatype Upstream =
    | TransportError(error: Thrown)
    | Response(status: int, statusText: string, body: Option<string>)

  /** The JSON bodies the handler replies with; `userMessage` and `message` are both the body's `message` field. */
  datatype ProxyBody =
    | Relay(data: Json)
    | UpstreamFailure(userMessage: Json, status: int, statusText: string, details: Json, rawResponse: string)
    | ProxyFailure(message: string, error: string)

  datatype ProxyResponse = ProxyResponse(status: int, body: ProxyBody)

  const TimeoutMessage := "요청 시간이 초과되었습니다. Azure 서비스가 응답하지 않습니다."
  const ConnectionMessage := "네트워크 연결에 실패했습니다. DNS 해석 또는 연결 문제일 수 있습니다."
  const TlsMessage := "SSL/TLS 인증서 문제가 발생했습니다."
  const NetworkPrefix := "네트워크 오류: "
  const ParseFailureMessage := "서버 응답을 파싱할 수 없습니다."
  const UnknownServerError := "서버에서 알 수 없는 오류가 발생했습니다."
  const DefaultStatusPrefix := "서버 오류 ("

  /** The four kinds of transport failure the handler tells apart. */
  datatype TransportKind = Timeout | Connection | Tls | OtherNetwork

  /** The kind of a transport failure, tested in the handler's order. */
  function TransportKindOf(e: Thrown): TransportKind {
    if e.name == "AbortError" then Timeout
    else if e.name == "TypeError" && Text.Contains(e.message, "fetch") then Connection
    else if Text.Contains(e.message, "certificate") || Text.Contains(e.message, "SSL") then Tls
    else OtherNetwork
  }

  /**
   * The message of the Error thrown for a failed fetch: a timeout first, then
   * a TypeError about fetch, then a certificate or SSL problem, and otherwise
   * the original message after "네트워크 오류: ".
   */
  function TransportMessage(e: Thrown): (m: string)
    ensures e.name == "AbortError" ==> m == TimeoutMessage
    ensures e.name != "AbortError" && e.name == "TypeError" && Text.Contains(e.message, "fetch") ==>
      m == ConnectionMessage
    ensures TransportKindOf(e) == Tls ==> m == TlsMessage
    ensures TransportKindOf(e) == OtherNetwork ==> m == NetworkPrefix + e.message
    ensures m != ""
  {
    match TransportKindOf(e)
    case Timeout => TimeoutMessage
    case Connection => ConnectionMessage
    case Tls => TlsMessage
    case OtherNetwork => NetworkPrefix + e.message
  }

  /** Reads the kind back from a transport message. */
  function KindOfTransportMessage(m: string): TransportKind {
    if m == TimeoutMessage then Timeout
    else if m == ConnectionMessage then Connection
    else if m == TlsMessage then Tls
    else OtherNetwork
  }

  /** The transport message tells which kind of failure occurred. */
  lemma TransportMessageIdentifiesKind(e: Thrown)
    ensures KindOfTransportMessage(TransportMessage(e)) == TransportKindOf(e)
  {
    if TransportKindOf(e) == OtherNetwork {
      var m := NetworkPrefix + e.message;
      assert m[0] == '네' && m[5] == '오';
      assert TimeoutMessage[0] == '요' && TlsMessage[0] == 'S' && ConnectionMessage[5] == '연';
    }
  }

  /** The `switch` on the upstream status: a fixed message for nine statuses, else one naming the status. */
  function StatusMessage(status: int, statusText: string): (m: string)
    ensures m != ""
    ensures !IsMappedStatus(status) ==> m == DefaultStatusPrefix + Text.IntToDecimal(status) + "): " + statusText
  {
    match status
    case 400 => "잘못된 요청입니다. 입력 데이터를 확인해주세요."
    case 401 => "인증이 필요합니다."
    case 403 => "접근이 거부되었습니다."
    case 404 => "API 엔드포인트를 찾을 수 없습니다."
    case 429 => "요청이 너무 많습니다. 잠시 후 다시 시도해주세요."
    case 500 => "서버 내부 오류가 발생했습니다."
    case 502 => "게이트웨이 오류가 발생했습니다."
    case 503 => "서비스를 사용할 수 없습니다."
    case 504 => "게이트웨이 시간 초과가 발생했습니다."
    case _ => DefaultStatusPrefix + Text.IntToDecimal(status) + "): " + statusText
  }

  /** The statuses with a fixed message. */
  predicate IsMappedStatus(status: int) {
    status in {400, 401, 403, 404, 429, 500, 502, 503, 504}
  }

  /** For one status text, different statuses get different messages: the message identifies the status. */
  lemma StatusMessageInjective(s: int, t: int, statusText: string)
    requires StatusMessage(s, statusText) == StatusMessage(t, statusText)
    ensures s == t
  {
    if !IsMappedStatus(s) && !IsMappedStatus(t) {
      DefaultMessageInjective(s, t, statusText);
    } else if !IsMappedStatus(s) {
      DefaultMessageShape(s, statusText);
      MappedMessageShape(t, statusText);
    } else if !IsMappedStatus(t) {
      DefaultMessageShape(t, statusText);
      MappedMessageShape(s, statusText);
    }
  }

  /** The message for an unmapped status starts with "서버 오". */
  lemma DefaultMessageShape(s: int, statusText: string)
    requires !IsMappedStatus(s)
    ensures var m := StatusMessage(s, statusText); |m| > 3 && m[0] == '서' && m[1] == '버' && m[3] == '오'
  {
    var m := StatusMessage(s, statusText);
    assert m[..|DefaultStatusPrefix|] == DefaultStatusPrefix;
  }

  /** No fixed status message starts with "서버 오". */
  lemma MappedMessageShape(s: int, statusText: string)
    requires IsMappedStatus(s)
    ensures var m := StatusMessage(s, statusText); !(|m| > 3 && m[0] == '서' && m[1] == '버' && m[3] == '오')
  {
  }

  lemma DefaultMessageInjective(s: int, t: int, statusText: string)
    requires !IsMappedStatus(s) && !IsMappedStatus(t)
    requires StatusMessage(s, statusText) == StatusMessage(t, statusText)
    ensures s == t
  {
    var p := DefaultStatusPrefix;
    var a, b := Text.IntToDecimal(s), Text.IntToDecimal(t);
    var x, y := p + a + "): " + statusText, p + b + "): " + statusText;
    assert |a| == |b|;
    assert a == x[|p|..|p| + |a|] == y[|p|..|p| + |b|] == b;
    DecimalInjective(s, t);
  }

  /** Different integers are printed differently. */
  lemma DecimalInjective(s: int, t: int)
    requires Text.IntToDecimal(s) == Text.IntToDecimal(t)
    ensures s == t
  {
    Text.NatToDecimalInjective(if s < 0 then -s else s, if t < 0 then -t else t);
    var a := Text.IntToDecimal(s);
    if s < 0 && t >= 0 {
    } else if s >= 0 && t < 0 {
    } else if s < 0 {
      assert a[1..] == Text.NatToDecimal(-s) && Text.IntToDecimal(t)[1..] == Text.NatToDecimal(-t);
    }
  }

  /** `response.ok`: a status in 200..299. */
  predicate IsOk(status: int) {
    200 <= status <= 299
  }

  /** "HTTP <status>: <statusText>". */
  function HttpLine(status: int, statusText: string): string {
    "HTTP " + Text.IntToDecimal(status) + ": " + statusText
  }

  /**
   * `errorData` after the upstream error body has been read: the message
   * "HTTP s: t" when the body could not be read or is blank, the text itself
   * as the message when it is not JSON, and the parsed JSON otherwise.
   */
  function ErrorData(status: int, statusText: string, body: Option<string>, parse: string -> Option<Json>): (d: Json)
    ensures body.None? ==> d == MessageObject(JString(HttpLine(status, statusText)))
    ensures body.Some? && Text.IsBlank(body.value) ==> d == MessageObject(JString(HttpLine(status, statusText)))
    ensures body.Some? && !Text.IsBlank(body.value) ==>
      d == match parse(body.value) case Some(j) => j case None => MessageObject(JString(body.value))
  {
    match body
    case None => MessageObject(JString(HttpLine(status, statusText)))
    case Some(text) =>
      if Text.Trim(text) == "" then MessageObject(JString(HttpLine(status, statusText)))
      else match parse(text)
        case Some(j) => j
        case None => MessageObject(JString(text))
  }

  /** The Fetch Standard's null body statuses: a response with one of them may not carry a body. */
  predicate NullBodyStatus(status: int) {
    status == 101 || status == 103 || status == 204 || status == 205 || status == 304
  }

  const StatusRangeMessage := "init[\"status\"] must be in the range of 200 to 599, inclusive."
  const NullBodyStatusPrefix := "Response constructor: Invalid response status code "

  /**
   * What `NextResponse.json(body, { status })` throws while building a reply
   * (with Node's `Response`): a RangeError for a status outside 200..599, and
   * a TypeError for a null body status, since the reply has a JSON body.
   */
  function ReplyInitError(status: int): (e: Option<Thrown>)
    ensures e.None? <==> 200 <= status <= 599 && !NullBodyStatus(status)
    ensures e.Some? ==> e.value.message != ""
    ensures e.Some? && 200 <= status <= 599 ==> e.value.name == "TypeError"
  {
    if status < 200 || status > 599 then Some(Thrown("RangeError", StatusRangeMessage))
    else if NullBodyStatus(status) then Some(Thrown("TypeError", NullBodyStatusPrefix + Text.IntToDecimal(status)))
    else None
  }

  /** The reply built in the outer `catch`: status 500, the error's message (or a fixed one when it has none) and its name. */
  function Caught(e: Thrown): (res: ProxyResponse)
    ensures res.status == 500 && res.body.ProxyFailure?
    ensures res.body.message != "" && res.body.error == e.name
    ensures e.message != "" ==> res.body.message == e.message
    ensures e.message == "" ==> res.body.message == UnknownServerError
  {
    ProxyResponse(500, ProxyFailure(if e.message != "" then e.message else UnknownServerError, e.name))
  }

  /**
   * POST /api/schedule. `request` is the outcome of reading the incoming
   * body; `parse` stands for JSON.parse on the upstream text.
   */
  method Post(request: Parsed<Json>, upstream: Upstream, parse: string -> Option<Json>)
    returns (res: ProxyResponse)
    ensures request.Unparsable? ==> res == Caught(request.error)
    ensures request.Parsed? && upstream.TransportError? ==>
      res == ProxyResponse(500, ProxyFailure(TransportMessage(upstream.error), "Error"))
    ensures request.Parsed? && upstream.Response? && !IsOk(upstream.status) ==>
      var d := ErrorData(upstream.status, upstream.statusText, upstream.body, parse);
      if d.JNull? then res == Caught(Thrown("TypeError", NullReadMessage))
      else if ReplyInitError(upstream.status).Some? then res == Caught(ReplyInitError(upstream.status).value)
      else res == ProxyResponse(upstream.status, UpstreamFailure(
        Or(MessageOf(d), JString(StatusMessage(upstream.status, upstream.statusText))),
        upstream.status, upstream.statusText, d,
        match upstream.body case Some(text) => text case None => ""))
    ensures request.Parsed? && upstream.Response? && IsOk(upstream.status) ==>
      match upstream.body
      case Some(text) =>
        if !Text.IsBlank(text) && parse(text).Some? then res == ProxyResponse(200, Relay(parse(text).value))
        else res == ProxyResponse(500, ProxyFailure(ParseFailureMessage, "Error"))
      case None => res == ProxyResponse(500, ProxyFailure(ParseFailureMessage, "Error"))
    ensures res.body.Relay? <==> IsOk(res.status)
    ensures res.body.UpstreamFailure? ==> Truthy(res.body.userMessage)
    ensures res.body.ProxyFailure? ==> res.status == 500 && res.body.message != ""
    ensures ReplyInitError(res.status).None?
  {
    if request.Unparsable? {
      return Caught(request.error);
    }
    if upstream.TransportError? {
      return Caught(Thrown("Error", TransportMessage(upstream.error)));
    }
    var status, statusText := upstream.status, upstream.statusText;
    if !IsOk(status) {
      var errorData := MessageObject(JString(HttpLine(status, statusText)));
      var responseText := "";
      if upstream.body.Some? {
        responseText := upstream.body.value;
        if Text.Trim(responseText) != "" {
          var parsed := parse(responseText);
          if parsed.Some? {
            errorData := parsed.value;
          } else {
            errorData := MessageObject(JString(responseText));
          }
        }
      }
      var userFriendlyMessage := StatusMessage(status, statusText);
      if errorData.JNull? {
        return Caught(Thrown("TypeError", NullReadMessage));
      }
      var initError := ReplyInitError(status);
      if initError.Some? {
        return Caught(initError.value);
      }
      var message := Or(MessageOf(errorData), JString(userFriendlyMessage));
      return ProxyResponse(status, UpstreamFailure(message, status, statusText, errorData, responseText));
    }
    if upstream.body.None? || Text.Trim(upstream.body.value) == "" {
      return Caught(Thrown("Error", ParseFailureMessage));
    }
    var data := parse(upstream.body.value);
    if data.None? {
      return Caught(Thrown("Error", ParseFailureMessage));
    }
    res := ProxyResponse(200, Relay(data.value));
  }

  /** The reply body as the browser receives it: the JSON object the handler serialises. */
  function BodyJson(body: ProxyBody): Json {
    match body
    case Relay(data) => data
    case UpstreamFailure(message, status, statusText, details, rawResponse) =>
      JObject(map["message" := message, "status" := JNumber(status), "statusText" := JString(statusText),
                  "details" := details, "rawResponse" := JString(rawResponse)])
    case ProxyFailure(message, error) =>
      JObject(map["message" := JString(message), "error" := JString(error)])
  }

  /**
   * A readable upstream error: when the body is JSON with a truthy `message`,
   * that message is passed on; when it has none, the status message is.
   */
  lemma UpstreamMessageChoice(status: int, statusText: string, text: string, parse: string -> Option<Json>)
    requires !IsOk(status) && !Text.IsBlank(text)
    ensures var d := ErrorData(status, statusText, Some(text), parse);
      !d.JNull? ==>
        Or(MessageOf(d), JString(StatusMessage(status, statusText))) ==
          if d.JObject? && "message" in d.fields && Truthy(d.fields["message"]) then d.fields["message"]
          else JString(StatusMessage(status, statusText))
  {
  }

  /**
   * When the upstream error body is blank or unreadable, the reply's message
   * is "HTTP s: t", never the status message of the switch: the body object
   * built for that case already has a truthy `message`.
   */
  lemma BlankErrorBodyShowsHttpLine(status: int, statusText: string, body: Option<string>, parse: string -> Option<Json>)
    requires body.None? || Text.IsBlank(body.value)
    ensures var d := ErrorData(status, statusText, body, parse);
      !d.JNull? && Or(MessageOf(d), JString(StatusMessage(status, statusText))) == JString(HttpLine(status, statusText))
  {
    assert HttpLine(status, statusText)[0] == 'H';
  }
}
