/**
 Klipper command strings (`send_klipper_command`): `klipper:METHOD|PARAMS`
 becomes a JSON-RPC request posted to the configured base URL, and exactly
 one `EventResponse` reports the outcome. Parsing the params text as JSON
 and performing the HTTP request are oracles passed in as functions.
 */
module Command {
  import opened Types

  /** The JSON values the command handling builds or passes along. */
  datatype Json = JString(text: string) | JObject(fields: map<string, Json>) | JOther(raw: string)

  /** An HTTP status code, three decimal digits as `StatusCode` guarantees. */
  type StatusCode = c: int | 100 <= c < 1000 witness 200

  /** `EventResponse`: the record pushed to the response queue. */
  datatype EventResponse = EventResponse(requestId: string, success: bool, status: Option<string>, body: Option<Json>)

  /** `EventMessage`: a request was issued, or a response arrived. */
  datatype EventMessage =
    | Issued(requestId: string, triggerInfo: string)
    | Response(response: EventResponse)

  /** The POST the command turns into. */
  datatype HttpRequest = HttpRequest(url: string, body: map<string, Json>)

  /** What sending the request yields: a status and an optional JSON body,
      or a transport error with its message. */
  datatype HttpOutcome = Responded(status: StatusCode, body: Option<Json>) | TransportError(message: string)

  /** The method name and params text a command carries. */
  datatype KlipperCall = KlipperCall(methodName: string, params: string)

  const KlipperPrefix: string := "klipper:"

  /** `strip_prefix("klipper:").unwrap_or(command)`. */
  function StripKlipperPrefix(command: string): (payload: string)
    ensures KlipperPrefix <= command ==> KlipperPrefix + payload == command
    ensures !(KlipperPrefix <= command) ==> payload == command
  {
    if KlipperPrefix <= command then command[|KlipperPrefix|..] else command
  }

  /** The index of the first `c` in `s`, if any. */
  function FindChar(s: string, c: char): (r: Option<nat>)
    ensures r.None? <==> c !in s
    ensures r.Some? ==> r.value < |s| && s[r.value] == c && c !in s[..r.value]
  {
    if s == [] then None
    else if s[0] == c then Some(0)
    else
      var rest := FindChar(s[1..], c);
      if rest.None? then None
      else
        assert s[..rest.value + 1] == [s[0]] + s[1..][..rest.value];
        Some(rest.value + 1)
  }

  /** `splitn(2, '|')`: the method is the text before the first '|', the
      params everything after it (later '|' included), "{}" when there is no '|'. */
  function SplitMethodParams(payload: string): (r: KlipperCall)
    ensures '|' !in r.methodName
    ensures '|' in payload ==> r.methodName + "|" + r.params == payload
    ensures '|' !in payload ==> r == KlipperCall(payload, "{}")
  {
    match FindChar(payload, '|')
    case None => KlipperCall(payload, "{}")
    case Some(i) =>
      assert payload == payload[..i] + "|" + payload[i + 1..];
      KlipperCall(payload[..i], payload[i + 1..])
  }

  /** The method and params a command string carries. */
  function ParseCommand(command: string): (r: KlipperCall)
    ensures '|' !in r.methodName
    ensures '|' in command && KlipperPrefix <= command ==> KlipperPrefix + r.methodName + "|" + r.params == command
    ensures '|' in command && !(KlipperPrefix <= command) ==> r.methodName + "|" + r.params == command
    ensures '|' !in command && KlipperPrefix <= command ==> r == KlipperCall(command[|KlipperPrefix|..], "{}")
    ensures '|' !in command && !(KlipperPrefix <= command) ==> r == KlipperCall(command, "{}")
  {
    SplitMethodParams(StripKlipperPrefix(command))
  }

  /** The command written for a method name and params text is split back into them. */
  lemma ParseComposedCommand(methodName: string, params: string)
    requires '|' !in methodName
    ensures ParseCommand(KlipperPrefix + methodName + "|" + params) == KlipperCall(methodName, params)
  {
    var command := KlipperPrefix + methodName + "|" + params;
    assert KlipperPrefix <= command;
    var payload := StripKlipperPrefix(command);
    assert payload == methodName + "|" + params by {
      assert KlipperPrefix + payload == KlipperPrefix + (methodName + "|" + params);
      assert payload == (KlipperPrefix + payload)[|KlipperPrefix|..];
    }
    assert payload[|methodName|] == '|';
    var r := SplitMethodParams(payload);
    assert |r.methodName| == |methodName|;
    assert r.methodName == methodName by {
      assert r.methodName == (r.methodName + "|" + r.params)[..|methodName|];
    }
    assert r.params == params by {
      assert r.params == (r.methodName + "|" + r.params)[|methodName| + 1..];
    }
  }

  /** `trim_end_matches('/')`: drops every trailing '/'. */
  function TrimTrailingSlashes(url: string): (r: string)
    ensures r <= url
    ensures r == [] || r[|r| - 1] != '/'
    ensures forall k :: |r| <= k < |url| ==> url[k] == '/'
  {
    if url != [] && url[|url| - 1] == '/' then TrimTrailingSlashes(url[..|url| - 1]) else url
  }

  /** Trimming a URL that was trimmed already changes nothing. */
  lemma TrimTrailingSlashesIdempotent(url: string)
    ensures TrimTrailingSlashes(TrimTrailingSlashes(url)) == TrimTrailingSlashes(url)
  {
  }

  /** The JSON-RPC body: exactly `jsonrpc`, `id`, `method` and `params`. */
  predicate IsRequestBody(body: map<string, Json>, requestId: string, methodName: string, params: Json) {
    && body.Keys == {"jsonrpc", "id", "method", "params"}
    && body["jsonrpc"] == JString("2.0")
    && body["id"] == JString(requestId)
    && body["method"] == JString(methodName)
    && body["params"] == params
  }

  /** Builds the request body by successive inserts into an empty map. */
  method BuildRequestBody(requestId: string, methodName: string, params: Json) returns (body: map<string, Json>)
    ensures IsRequestBody(body, requestId, methodName, params)
  {
    body := map[];
    body := body["jsonrpc" := JString("2.0")];
    body := body["id" := JString(requestId)];
    body := body["method" := JString(methodName)];
    body := body["params" := params];
  }

  /** `StatusCode::is_success`: a 2xx code. */
  predicate IsSuccess(code: StatusCode) {
    200 <= code < 300
  }

  function Digit(d: int): (c: char)
    requires 0 <= d < 10
    ensures '0' <= c <= '9' && c as int - '0' as int == d
  {
    "0123456789"[d]
  }

  /** `StatusCode::as_str`: the code's three decimal digits. */
  function StatusText(code: StatusCode): (s: string)
    ensures |s| == 3
    ensures forall k :: 0 <= k < 3 ==> '0' <= s[k] <= '9'
    ensures (s[0] as int - '0' as int) * 100 + (s[1] as int - '0' as int) * 10 + (s[2] as int - '0' as int) == code
  {
    [Digit(code / 100), Digit(code / 10 % 10), Digit(code % 10)]
  }

  /** `send_klipper_command`: `parse` stands for `serde_json::from_str` and
      `send` for posting the request. A params text that does not parse
      yields one `invalid_params` response with an empty request id and no
      request; otherwise the request goes to the trimmed base URL and its
      outcome becomes one response carrying `requestId`. */
  method SendKlipperCommand(command: string, baseUrl: string, requestId: string,
                            parse: string -> Option<Json>, send: HttpRequest -> HttpOutcome)
    returns (request: Option<HttpRequest>, message: EventMessage)
    ensures parse(ParseCommand(command).params).None? ==>
      request == None && message == Response(EventResponse("", false, Some("invalid_params"), None))
    ensures parse(ParseCommand(command).params).Some? ==>
      && request.Some?
      && request.value.url == TrimTrailingSlashes(baseUrl)
      && IsRequestBody(request.value.body, requestId, ParseCommand(command).methodName,
                       parse(ParseCommand(command).params).value)
    ensures request.Some? && send(request.value).Responded? ==>
      var code := send(request.value).status;
      message == Response(EventResponse(requestId, IsSuccess(code), Some(StatusText(code)), send(request.value).body))
    ensures request.Some? && send(request.value).TransportError? ==>
      message == Response(EventResponse(requestId, false, Some("error: " + send(request.value).message), None))
  {
    var call := ParseCommand(command);
    var parsed := parse(call.params);
    if parsed.None? {
      request := None;
      message := Response(EventResponse("", false, Some("invalid_params"), None));
      return;
    }
    var body := BuildRequestBody(requestId, call.methodName, parsed.value);
    var url := TrimTrailingSlashes(baseUrl);
    var req := HttpRequest(url, body);
    request := Some(req);
    match send(req) {
      case Responded(code, json) =>
        message := Response(EventResponse(requestId, IsSuccess(code), Some(StatusText(code)), json));
      case TransportError(e) =>
        message := Response(EventResponse(requestId, false, Some("error: " + e), None));
    }
  }
}
