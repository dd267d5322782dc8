/** The OpenAI classifier of `pi_email/common/src/classifier.rs`: the
    environment gives the credentials and settings, the request holds a
    fixed system prompt and a user prompt built from the mail, and the
    reply's JSON is taken from a fenced block when there is one.
    The chat call itself is a parameter from request to reply, and JSON
    decoding is a parameter from text to an optional pair. */
module OpenAiClassifier {
  import opened Wrappers
  import opened Text

  type Confidence = real

  /** The variables read from the environment; `None` when unset. */
  datatype Env = Env(apiKey: Option<string>, model: Option<string>,
                     apiUrl: Option<string>, timeout: Option<string>)

  datatype Request = Request(apiKey: string, apiUrl: string, model: string,
                             timeoutSecs: nat, system: string, user: string)

  /** How the timed chat call ended: the timer fired, the call failed, or a
      reply came back whose choices each carry optional content. */
  datatype Reply = TimedOut | CallFailed | Replied(choices: seq<Option<string>>)

  const DefaultModel := "gpt-4.1"
  const DefaultApiUrl := "https://api.openai.com/v1"
  const DefaultTimeoutSecs := 60
  const U64Limit := 0x1_0000_0000_0000_0000

  const SystemPrompt := "당신은 이메일 스팸 분류 전문가입니다. "
    + "결과는 정확히 JSON 하나만, 예시처럼 응답하세요:\n"
    + "{\"category\":\"SPAM\",\"confidence\":0.87}"

  const OpenFence := "```json"
  const CloseFence := "```"

  function UserPrompt(subject: string, body: string): string {
    "제목: " + subject + "\n본문:\n" + body
  }

  /** The timeout in seconds: OPENAI_TIMEOUT when it parses as a `u64`, 60 otherwise. */
  function TimeoutSecs(timeout: Option<string>): (r: nat)
    ensures r < U64Limit
    ensures timeout.Some? && ParseUnsigned(timeout.value, U64Limit).Some? ==>
      r == ParseUnsigned(timeout.value, U64Limit).value
    ensures timeout.None? || ParseUnsigned(timeout.value, U64Limit).None? ==> r == DefaultTimeoutSecs
  {
    match timeout
    case Some(s) => ParseUnsigned(s, U64Limit).GetOr(DefaultTimeoutSecs)
    case None => DefaultTimeoutSecs
  }

  /** The request, or an error when there is no API key. */
  function BuildRequest(env: Env, subject: string, body: string): (r: Result<Request>)
    ensures r.Err? <==> env.apiKey.None?
    ensures r.Ok? ==> r.value.apiKey == env.apiKey.value
    ensures r.Ok? ==>
      && r.value.model == env.model.GetOr(DefaultModel)
      && r.value.apiUrl == env.apiUrl.GetOr(DefaultApiUrl)
      && r.value.timeoutSecs == TimeoutSecs(env.timeout)
    ensures r.Ok? ==> r.value.system == SystemPrompt && r.value.user == UserPrompt(subject, body)
  {
    match env.apiKey
    case None => Err("OPENAI_API_KEY must be set")
    case Some(key) =>
      Ok(Request(key, env.apiUrl.GetOr(DefaultApiUrl), env.model.GetOr(DefaultModel),
                 TimeoutSecs(env.timeout), SystemPrompt, UserPrompt(subject, body)))
  }

  /** The user prompt starts with the subject line and ends with the body. */
  lemma UserPromptShape(subject: string, body: string)
    ensures StartsWith(UserPrompt(subject, body), "제목: " + subject)
    ensures var u := UserPrompt(subject, body); u[|u| - |body|..] == body
    ensures |UserPrompt(subject, body)| == |subject| + |body| + 9
  {
  }

  // ---- the fenced JSON block --------------------------------------------

  /** The first occurrence of `w` in `s` at or after `from`. */
  function FirstOccurrence(s: string, w: string, from: nat): (r: Option<nat>)
    requires w != []
    ensures r.Some? ==> from <= r.value && OccursAt(s, w, r.value)
    ensures r.Some? ==> forall j | from <= j < r.value :: !OccursAt(s, w, j)
    ensures r.None? ==> forall j | from <= j :: !OccursAt(s, w, j)
    decreases |s| - from
  {
    if from + |w| > |s| then None
    else if OccursAt(s, w, from) then Some(from)
    else FirstOccurrence(s, w, from + 1)
  }

  /** The index of the first non-whitespace character at or after `from`. */
  function SkipWhitespace(s: string, from: nat): (r: nat)
    requires from <= |s|
    ensures from <= r <= |s|
    ensures forall k | from <= k < r :: IsWhitespace(s[k])
    ensures r < |s| ==> !IsWhitespace(s[r])
    decreases |s| - from
  {
    if from < |s| && IsWhitespace(s[from]) then SkipWhitespace(s, from + 1) else from
  }

  /** `s` without its trailing whitespace. */
  function TrimEndWhitespace(s: string): (r: string)
    ensures r <= s
    ensures r != [] ==> !IsWhitespace(r[|r| - 1])
    ensures forall k | |r| <= k < |s| :: IsWhitespace(s[k])
  {
    if s != [] && IsWhitespace(s[|s| - 1]) then TrimEndWhitespace(s[..|s| - 1]) else s
  }

  /** Where the lazy pattern  ```json\s*([\s\S]*?)\s*```  matches: the
      opening fence at `open`, the capture group from `start` to the closing
      fence at `end` (trailing whitespace included; it is trimmed after). */
  datatype Capture = Capture(open: nat, start: nat, end: nat)

  /** The match can only begin at the first "```json" (the fence has no
      proper border, so a later one would itself close the first); the
      greedy `\s*` takes all whitespace after it, since a fence cannot start
      inside whitespace; and the lazy group runs to the first "```" after
      that. */
  function FindCapture(full: string): (r: Option<Capture>)
    ensures r.Some? ==>
      var c := r.value;
      && OccursAt(full, OpenFence, c.open)
      && (forall j | 0 <= j < c.open :: !OccursAt(full, OpenFence, j))
      && c.open + |OpenFence| <= c.start <= c.end <= |full|
      && (forall k | c.open + |OpenFence| <= k < c.start :: IsWhitespace(full[k]))
      && (c.start < |full| ==> !IsWhitespace(full[c.start]))
      && OccursAt(full, CloseFence, c.end)
      && (forall j | c.start <= j < c.end :: !OccursAt(full, CloseFence, j))
  {
    match FirstOccurrence(full, OpenFence, 0)
    case None => None
    case Some(i) =>
      var g := SkipWhitespace(full, i + |OpenFence|);
      match FirstOccurrence(full, CloseFence, g)
      case None => None
      case Some(p) => Some(Capture(i, g, p))
  }

  /** The text handed to the JSON decoder: the capture group less its
      trailing whitespace when the pattern matches, the whole reply otherwise. */
  function JsonBlock(full: string): string {
    match FindCapture(full)
    case None => full
    case Some(c) => TrimEndWhitespace(full[c.start..c.end])
  }

  predicate HasNoEdgeWhitespace(s: string) {
    s != [] ==> !IsWhitespace(s[0]) && !IsWhitespace(s[|s| - 1])
  }

  /** Whether the reply has an opening fence followed later by a closing one. */
  predicate Fenced(full: string) {
    exists i, p | 0 <= i && i + |OpenFence| <= p <= |full| ::
      OccursAt(full, OpenFence, i) && OccursAt(full, CloseFence, p)
  }

  /** A closing fence after the opening one at `i` lies at or beyond the end
      `g` of the whitespace that follows it. */
  lemma FenceAfterWhitespace(full: string, i: nat, g: nat, p: nat)
    requires OccursAt(full, CloseFence, p)
    requires i + |OpenFence| <= p
    requires g == SkipWhitespace(full, i + |OpenFence|)
    ensures g <= p
  {
    assert full[p] == full[p..p + |CloseFence|][0] == '`';
    assert !IsWhitespace(full[p]);
  }

  /** The pattern matches exactly when the reply has an opening fence
      followed later by a closing one. */
  lemma CaptureIffFenced(full: string)
    ensures FindCapture(full).Some? <==> Fenced(full)
  {
    if Fenced(full) {
      var i0, p0 :| 0 <= i0 && i0 + |OpenFence| <= p0 <= |full|
        && OccursAt(full, OpenFence, i0) && OccursAt(full, CloseFence, p0);
      var i := FirstOccurrence(full, OpenFence, 0).value;
      var g := SkipWhitespace(full, i + |OpenFence|);
      FenceAfterWhitespace(full, i, g, p0);
    }
    if FindCapture(full).Some? {
      var c := FindCapture(full).value;
      assert OccursAt(full, OpenFence, c.open) && OccursAt(full, CloseFence, c.end);
    }
  }

  /** Without a match the whole reply is decoded. */
  lemma JsonBlockUnfenced(full: string)
    requires !Fenced(full)
    ensures JsonBlock(full) == full
  {
    CaptureIffFenced(full);
  }

  /** With a match, the decoded text is the stretch of the reply that starts
      the capture, followed only by whitespace up to the closing fence; it
      has no leading or trailing whitespace and holds no fence. */
  lemma JsonBlockFenced(full: string)
    requires Fenced(full)
    ensures FindCapture(full).Some?
    ensures var c, r := FindCapture(full).value, JsonBlock(full);
      && c.start + |r| <= c.end
      && full[c.start..c.start + |r|] == r
      && (forall k | c.start + |r| <= k < c.end :: IsWhitespace(full[k]))
    ensures HasNoEdgeWhitespace(JsonBlock(full))
    ensures !Contains(JsonBlock(full), CloseFence)
  {
    CaptureIffFenced(full);
    var c := FindCapture(full).value;
    var span := full[c.start..c.end];
    var r := TrimEndWhitespace(span);
    assert JsonBlock(full) == r;
    TrimmedSpan(full, c.start, c.end);
    if r != [] {
      assert r[0] == full[c.start];
    }
    NoFenceInSpan(full, c.start, c.end, r);
  }

  lemma TrimmedSpan(full: string, a: nat, b: nat)
    requires a <= b <= |full|
    ensures var r := TrimEndWhitespace(full[a..b]);
      && a + |r| <= b
      && full[a..a + |r|] == r
      && (forall k | a + |r| <= k < b :: IsWhitespace(full[k]))
  {
    var span := full[a..b];
    var r := TrimEndWhitespace(span);
    assert r == span[..|r|];
    forall k | a + |r| <= k < b
      ensures IsWhitespace(full[k])
    {
      assert full[k] == span[k - a];
    }
  }

  lemma NoFenceInSpan(full: string, a: nat, b: nat, r: string)
    requires a + |r| <= b <= |full| && full[a..a + |r|] == r
    requires forall j | a <= j < b :: !OccursAt(full, CloseFence, j)
    ensures !Contains(r, CloseFence)
  {
    if Contains(r, CloseFence) {
      var j :| 0 <= j <= |r| - |CloseFence| && OccursAt(r, CloseFence, j);
      assert forall t | 0 <= t < |r| :: r[t] == full[a..a + |r|][t] == full[a + t];
      assert full[a + j..a + j + |CloseFence|] == r[j..j + |CloseFence|];
      assert OccursAt(full, CloseFence, a + j);
    }
  }

  // ---- the reply --------------------------------------------------------

  /** The reply's text: the first choice's content, or "" when there is no
      choice or it has no content. */
  function ReplyText(choices: seq<Option<string>>): (r: string)
    ensures choices != [] && choices[0].Some? ==> r == choices[0].value
    ensures choices == [] || choices[0].None? ==> r == []
  {
    if choices == [] then [] else choices[0].GetOr([])
  }

  /** `classify_via_openai`: the request is built (failing without a key),
      sent through `call`, and the reply's JSON block decoded. */
  function ClassifyViaOpenAi(env: Env, subject: string, body: string,
                             call: Request -> Reply,
                             decode: string -> Option<(string, Confidence)>)
    : (r: Result<(string, Confidence)>)
    ensures env.apiKey.None? ==> r.Err?
    ensures r.Ok? <==>
      && env.apiKey.Some?
      && call(BuildRequest(env, subject, body).value).Replied?
      && decode(JsonBlock(ReplyText(call(BuildRequest(env, subject, body).value).choices))).Some?
    ensures r.Ok? ==>
      r.value == decode(JsonBlock(ReplyText(call(BuildRequest(env, subject, body).value).choices))).value
  {
    match BuildRequest(env, subject, body)
    case Err(e) => Err(e)
    case Ok(request) =>
      match call(request)
      case TimedOut => Err("OpenAI call timed out")
      case CallFailed => Err("AI call failed")
      case Replied(choices) =>
        match decode(JsonBlock(ReplyText(choices)))
        case Some(c) => Ok(c)
        case None => Err("JSON parse failed")
  }

  /** A reply without content is decoded as the empty text, so it is an
      error whenever the decoder refuses "" (as a JSON parser does). */
  lemma EmptyReplyFails(env: Env, subject: string, body: string,
                        call: Request -> Reply,
                        decode: string -> Option<(string, Confidence)>)
    requires env.apiKey.Some?
    requires var c := call(BuildRequest(env, subject, body).value);
      c.Replied? && (c.choices == [] || c.choices[0].None?)
    requires decode([]).None?
    ensures ClassifyViaOpenAi(env, subject, body, call, decode).Err?
  {
    assert JsonBlock([]) == [];
  }
}
