/** The worker's API client of `worker/src/api.rs`: the base URL is stored
    without trailing slashes, the classify call posts the email id to a
    fixed path below it, and the HTTP outcome is mapped to a result. The
    POST itself is a parameter from URL and request to outcome; decoding
    the response body is part of that outcome. */
module ApiClient {
  import opened Wrappers
  import opened Text

  type Confidence = real

  const ClassifyPath := "/api/email/classify"

  datatype Client = Client(baseUrl: string)

  datatype ClassifyRequest = ClassifyRequest(emailId: string)

  /** How the POST ended: it could not be sent, or a status came back with
      a body that may or may not decode as category and confidence. */
  datatype HttpOutcome = SendFailed | Response(status: nat, decoded: Option<(string, Confidence)>)

  /** `ApiClient::new`. */
  function New(baseUrl: string): (c: Client)
    ensures c.baseUrl <= baseUrl
    ensures c.baseUrl == [] || c.baseUrl[|c.baseUrl| - 1] != '/'
    ensures forall i | |c.baseUrl| <= i < |baseUrl| :: baseUrl[i] == '/'
  {
    Client(TrimEndMatches(baseUrl, '/'))
  }

  /** Only trailing slashes are removed: the given URL is the stored one
      followed by slashes, and a stored URL is normalised already. */
  lemma NewStripsOnlySlashes(baseUrl: string)
    ensures var b := New(baseUrl).baseUrl;
      baseUrl == b + seq(|baseUrl| - |b|, _ => '/')
    ensures New(New(baseUrl).baseUrl) == New(baseUrl)
  {
    var b := New(baseUrl).baseUrl;
    var tail := seq(|baseUrl| - |b|, _ => '/');
    assert baseUrl == b + tail by {
      assert baseUrl == baseUrl[..|b|] + baseUrl[|b|..];
      assert baseUrl[|b|..] == tail;
    }
    TrimEndMatchesIdempotent(baseUrl, '/');
  }

  function ClassifyUrl(c: Client): string {
    c.baseUrl + ClassifyPath
  }

  /** The request URL never has a doubled slash where the path is joined. */
  lemma ClassifyUrlJoin(baseUrl: string)
    ensures var url := ClassifyUrl(New(baseUrl));
      StartsWith(url, New(baseUrl).baseUrl)
      && url[|New(baseUrl).baseUrl|..] == ClassifyPath
      && (|New(baseUrl).baseUrl| > 0 ==> url[|New(baseUrl).baseUrl| - 1] != '/')
  {
  }

  /** reqwest's `StatusCode::is_success`. */
  predicate IsSuccess(status: nat) {
    200 <= status <= 299
  }

  /** The result of the call for a given outcome. */
  function Interpret(outcome: HttpOutcome): (r: Result<(string, Confidence)>)
    ensures r.Ok? <==> outcome.Response? && IsSuccess(outcome.status) && outcome.decoded.Some?
    ensures r.Ok? ==> r.value == outcome.decoded.value
  {
    match outcome
    case SendFailed => Err("classify request failed")
    case Response(status, decoded) =>
      if !IsSuccess(status) then Err("classify request error status")
      else match decoded
        case Some(v) => Ok(v)
        case None => Err("classify response parse failed")
  }

  /** A non-success status is an error whatever the body holds: the body is
      not parsed. */
  lemma StatusErrorIgnoresBody(status: nat, a: Option<(string, Confidence)>, b: Option<(string, Confidence)>)
    requires !IsSuccess(status)
    ensures Interpret(Response(status, a)) == Interpret(Response(status, b))
    ensures Interpret(Response(status, a)).Err?
  {
  }

  /** `ApiClient::classify_email`: posts the email id, unchanged, to the
      base URL followed by the classify path. The call succeeds exactly when
      that POST was answered with a 2xx status whose body decodes, and then
      returns the decoded category and confidence; a failed send, any other
      status or an undecodable body is an error. */
  function ClassifyEmail(c: Client, emailId: string,
                         post: (string, ClassifyRequest) -> HttpOutcome)
    : (r: Result<(string, Confidence)>)
    ensures var o := post(c.baseUrl + ClassifyPath, ClassifyRequest(emailId));
      && (r.Ok? <==> o.Response? && IsSuccess(o.status) && o.decoded.Some?)
      && (r.Ok? ==> r.value == o.decoded.value)
  {
    Interpret(post(ClassifyUrl(c), ClassifyRequest(emailId)))
  }
}
