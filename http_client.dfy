/**
 * The response hook every request of the HTTP client passes through (`afterResponse` in
 * src/lib/api.ts). It is the runtime session guard (a 401 anywhere but on the login page asks
 * the router for the login page) and the response shaper (every non-ok response becomes an
 * `AppError` whose message is taken, best effort, from a JSON error body).
 *
 * The transport itself is not modelled: the hook receives the response's status, status text,
 * content-type header and the outcome of parsing its body as JSON.
 */
module HttpClient {
  import opened Wrappers
  import opened JsStrings
  import opened AppErrors
  import opened Navigation

  /** A field value of a parsed JSON object, as far as the hook looks at it. */
  datatype JsonValue = JString(s: string) | JNonString

  /** What `await response.clone().json()` yields. */
  datatype Body =
    | JsonObject(fields: map<string, JsonValue>)  // an object (or array): field reads succeed
    | JsonNonObject                               // a number, string or boolean: field reads give undefined
    | JsonNull                                    // `null`: reading `data.detail` throws a TypeError
    | Unparsable                                  // not JSON at all: `json()` rejects

  datatype Response = Response(status: nat, statusText: string, contentType: Option<string>, body: Body)

  /** What the hook does with the response: hand it on, or throw. */
  datatype HookOutcome = PassThrough(response: Response) | Throw(error: AppError)

  const JsonMediaType: string := "application/json"
  const UnauthorizedStatus: nat := 401

  /** `response.ok`: the status is an ok status (200 to 299) in the sense of the WHATWG Fetch Standard. */
  predicate IsOk(status: nat) {
    200 <= status <= 299
  }

  /** The message used when the body offers none: `HTTP <status> <statusText>`. */
  function FallbackMessage(r: Response): string {
    "HTTP " + DecimalString(r.status) + " " + r.statusText
  }

  /** The content-type header is present and mentions `application/json`. */
  predicate DeclaresJson(r: Response) {
    r.contentType.Some? && Includes(r.contentType.value, JsonMediaType)
  }

  /** One message extractor: field `name` of a JSON object body, if it is a string that is not empty after trimming. */
  function NonBlankField(r: Response, name: string): Option<string> {
    if DeclaresJson(r) && r.body.JsonObject? && name in r.body.fields
       && r.body.fields[name].JString? && Trim(r.body.fields[name].s) != ""
    then Some(r.body.fields[name].s)
    else None
  }

  /** The first candidate that is present, else the fallback. */
  function FirstPresent(candidates: seq<Option<string>>, fallback: string): string {
    if candidates == [] then fallback
    else if candidates[0].Some? then candidates[0].value
    else FirstPresent(candidates[1..], fallback)
  }

  lemma FirstPresentOfTwo(a: Option<string>, b: Option<string>, fallback: string)
    ensures FirstPresent([a, b], fallback) == if a.Some? then a.value else if b.Some? then b.value else fallback
  {
    assert FirstPresent([b], fallback) == if b.Some? then b.value else fallback by {
      assert [b][1..] == [];
    }
    assert [a, b][1..] == [b];
  }

  /** The error message of a non-ok response: `detail`, then `message`, then the status line. */
  function ErrorMessage(r: Response): string {
    FirstPresent([NonBlankField(r, "detail"), NonBlankField(r, "message")], FallbackMessage(r))
  }

  /** The hook itself. It navigates (fire and forget) before it decides whether to throw. */
  method AfterResponse(response: Response, location: Location, codeFromStatus: nat -> ErrorCode)
    returns (navigation: Option<Navigate>, outcome: HookOutcome)
    ensures navigation.Some? <==> response.status == UnauthorizedStatus && location.pathname != LoginPath
    ensures navigation.Some? ==> navigation.value == Navigate(LoginPath, Some(location.href), true)
    ensures outcome.PassThrough? <==> IsOk(response.status)
    ensures outcome.PassThrough? ==> outcome.response == response
    ensures outcome.Throw? ==> outcome.error == AppError(codeFromStatus(response.status), ErrorMessage(response))
  {
    navigation := None;
    if response.status == UnauthorizedStatus {
      if location.pathname != LoginPath {
        navigation := Some(Navigate(LoginPath, Some(location.href), true));
      }
    }

    if !IsOk(response.status) {
      var code := codeFromStatus(response.status);
      var message := "HTTP " + DecimalString(response.status) + " " + response.statusText;
      var contentType := response.contentType;
      if contentType.Some? && Includes(contentType.value, JsonMediaType) {
        match response.body {
          case JsonObject(data) =>
            if "detail" in data && data["detail"].JString? && Trim(data["detail"].s) != "" {
              message := data["detail"].s;
            } else if "message" in data && data["message"].JString? && Trim(data["message"].s) != "" {
              message := data["message"].s;
            }
          case _ =>
            // a body that does not parse, or a `null` whose field read throws: the catch keeps the fallback
        }
      }
      FirstPresentOfTwo(NonBlankField(response, "detail"), NonBlankField(response, "message"), FallbackMessage(response));
      outcome := Throw(AppError(code, message));
      return;
    }

    outcome := PassThrough(response);
  }

  /** Field `name` of the body is a string with a non-whitespace character, in a body declared as JSON. */
  ghost predicate Usable(r: Response, name: string) {
    DeclaresJson(r) && r.body.JsonObject? && name in r.body.fields
    && r.body.fields[name].JString? && !IsBlank(r.body.fields[name].s)
  }

  /** Message priority: a usable `detail`, else a usable `message`, else `HTTP <status> <statusText>`. */
  lemma MessagePriority(r: Response)
    ensures Usable(r, "detail") ==> ErrorMessage(r) == r.body.fields["detail"].s
    ensures !Usable(r, "detail") && Usable(r, "message") ==> ErrorMessage(r) == r.body.fields["message"].s
    ensures !Usable(r, "detail") && !Usable(r, "message") ==> ErrorMessage(r) == FallbackMessage(r)
  {
    FirstPresentOfTwo(NonBlankField(r, "detail"), NonBlankField(r, "message"), FallbackMessage(r));
    if r.body.JsonObject? && "detail" in r.body.fields && r.body.fields["detail"].JString? {
      TrimEmptyIffBlank(r.body.fields["detail"].s);
    }
    if r.body.JsonObject? && "message" in r.body.fields && r.body.fields["message"].JString? {
      TrimEmptyIffBlank(r.body.fields["message"].s);
    }
  }

  /** Without a JSON content type, or without a body that parses to an object, the message is the status line. */
  lemma NonJsonBodyGivesFallback(r: Response)
    requires !DeclaresJson(r) || !r.body.JsonObject?
    ensures ErrorMessage(r) == FallbackMessage(r)
  {
    FirstPresentOfTwo(NonBlankField(r, "detail"), NonBlankField(r, "message"), FallbackMessage(r));
  }

  /** The message of a thrown error is never empty, and it never consists of whitespace only. */
  lemma {:induction false} MessageNotBlank(r: Response)
    ensures !IsBlank(ErrorMessage(r))
  {
    MessagePriority(r);
    var f := FallbackMessage(r);
    if !Usable(r, "detail") && !Usable(r, "message") {
      assert f[0] == 'H' && !IsJsWhitespace(f[0]);
    }
  }

  /** The status line names the status: its digits after `HTTP ` read back as the status code. */
  lemma {:induction false} FallbackNamesStatus(r: Response)
    ensures FallbackMessage(r)[..5] == "HTTP "
    ensures var digits := DecimalString(r.status);
            FallbackMessage(r)[5..5 + |digits|] == digits && DecimalValue(digits) == r.status
  {
    DecimalRoundTrip(r.status);
  }

  /** A 422 whose JSON body carries `detail` yields exactly that text. */
  lemma DetailExample()
    ensures ErrorMessage(Response(422, "Unprocessable Entity", Some("application/json"),
                                  JsonObject(map["detail" := JString("title too short")]))) == "title too short"
  {
    var r := Response(422, "Unprocessable Entity", Some("application/json"),
                      JsonObject(map["detail" := JString("title too short")]));
    assert DeclaresJson(r);
    FirstPresentOfTwo(NonBlankField(r, "detail"), NonBlankField(r, "message"), FallbackMessage(r));
  }
}
