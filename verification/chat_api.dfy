/**
 * The three chat endpoints: the pages-router handler with its bounded retry on
 * rate-limit errors (src/pages/api/chat.ts), and the two app-router `POST`
 * routes (legacy and current). Each is a total function from the request and
 * the upstream outcomes to the response; the upstream model client is not
 * called but consulted, through the outcome its k-th call would have.
 */
module ChatApi {
  import opened Wrappers
  import opened Text
  import opened Json

  /** Waits before the second and third attempt. */
  const RetryDelaysMs: seq<nat> := [700, 1400]

  const BusyMessage := "ただいまアクセスが集中しています。30秒ほど待ってから再度お試しください。"
  const ApiKeyMessage := "Gemini API キーが設定されていません。.env.local ファイルを確認してください。"
  const ErrorPrefix := "エラーが発生しました: "
  const ImageFailedMessage := "画像の生成に失敗しました。別のプロンプトで試してみてください。"
  const ImageFailedShort := "画像の生成に失敗しました"
  const MessagesRequired := "messages is required"
  const MethodNotAllowed := "Method not allowed"
  const UnknownError := "Unknown error"

  /** V8's wording for destructuring, and for reading a property of, a `null` body. */
  const NullDestructure := "Cannot destructure property 'messages' of 'body' as it is null."
  const NullPropertyRead := "Cannot read properties of null (reading 'generateImagePrompt')"

  /** What a `catch` receives: an `Error` with its message, or any other value. */
  datatype Thrown = ErrorValue(message: string) | NonError

  /** `error instanceof Error ? error.message : "Unknown error"`. */
  function MessageOf(e: Thrown): (m: string)
    ensures e.ErrorValue? ==> m == e.message
    ensures e.NonError? ==> m == UnknownError
  {
    if e.ErrorValue? then e.message else UnknownError
  }

  /**
   * What one upstream call does. An image call that resolves to `null` is
   * `Returns("")`: both are falsy, and the handlers only test truthiness.
   */
  datatype Outcome = Returns(value: string) | Throws(err: Thrown)

  /** The upstream call a request leads to. */
  datatype Call = ImageCall(prompt: Json) | ChatCall(messages: seq<Json>, mode: Prop)

  /** Status, `Allow` header values and JSON body of a response. */
  datatype Response = Response(status: nat, allow: seq<string>, body: Json)

  function ErrorBody(text: string): Json {
    JObj(map["error" := JStr(text)])
  }

  function Reply(status: nat, body: Json): Response {
    Response(status, [], body)
  }

  /** `isRateLimitError`: the message mentions 429 or, ignoring case, "resource exhausted". */
  predicate IsRateLimitError(message: string)
    ensures Contains(message, "429") ==> IsRateLimitError(message)
    ensures Contains(message, "resource exhausted") ==> IsRateLimitError(message)
  {
    LowerKeepsPhrase(message);
    Contains(message, "429") || Contains(ToLower(message), "resource exhausted")
  }

  /** A phrase already in lower case survives lowering the message around it. */
  lemma LowerKeepsPhrase(message: string)
    ensures Contains(message, "resource exhausted") ==> Contains(ToLower(message), "resource exhausted")
  {
    if Contains(message, "resource exhausted") {
      var i :| 0 <= i <= |message| && OccursAt(message, "resource exhausted", i);
      var low := ToLower(message);
      assert forall k :: i <= k < i + 18 ==> low[k] == message[k] by {
        forall k | i <= k < i + 18 ensures low[k] == message[k] {
          assert message[k] == "resource exhausted"[k - i];
        }
      }
      assert low[i..i + 18] == message[i..i + 18];
      assert OccursAt(low, "resource exhausted", i);
    }
  }

  predicate RateLimited(o: Outcome) {
    o.Throws? && IsRateLimitError(MessageOf(o.err))
  }

  /** Destructuring with a default: `mode = "ohisama"` replaces only `undefined`. */
  function DefaultMode(p: Prop): (r: Prop)
    ensures p.Undefined? ==> r == Defined(JStr("ohisama"))
    ensures p.Defined? ==> r == p
  {
    if p.Undefined? then Defined(JStr("ohisama")) else p
  }

  /**
   * The call a parsed body asks for, with `mode` as the route passes it on: an
   * image when `generateImagePrompt` is truthy, whatever else the body holds;
   * otherwise a chat when `messages` is an array; otherwise nothing (the 400).
   */
  function CallFor(b: Json, withDefault: bool): (c: Option<Call>)
    ensures PropTruthy(Lookup(b, "generateImagePrompt")) <==> c.Some? && c.value.ImageCall?
    ensures c.Some? && c.value.ImageCall? ==> Lookup(b, "generateImagePrompt") == Defined(c.value.prompt)
    ensures c.Some? && c.value.ChatCall? ==>
      && Lookup(b, "messages") == Defined(JArr(c.value.messages))
      && c.value.mode == (if withDefault then DefaultMode(Lookup(b, "mode")) else Lookup(b, "mode"))
    ensures c.None? <==> !PropTruthy(Lookup(b, "generateImagePrompt")) && !MessagesArray(b)
  {
    var prompt := Lookup(b, "generateImagePrompt");
    var messages := Lookup(b, "messages");
    var mode := Lookup(b, "mode");
    if PropTruthy(prompt) then Some(ImageCall(prompt.value))
    else if messages.Defined? && messages.value.JArr? then
      Some(ChatCall(messages.value.items, if withDefault then DefaultMode(mode) else mode))
    else None
  }

  /** `!messages || !Array.isArray(messages)` is false: an array is always truthy. */
  predicate MessagesArray(b: Json) {
    Lookup(b, "messages").Defined? && Lookup(b, "messages").value.JArr?
  }

  /** The 200 answer of the pages handler and the legacy route to a call that returned. */
  function Answer(call: Call, value: string): (r: Response)
    ensures r.status == 200 && r.allow == []
    ensures call.ImageCall? && value != "" ==>
      r.body == JObj(map["success" := JBool(true), "imageBase64" := JStr(value)])
    ensures call.ImageCall? && value == "" ==>
      r.body == JObj(map["success" := JBool(false), "error" := JStr(ImageFailedMessage)])
    ensures call.ChatCall? ==> r.body == JObj(map["success" := JBool(true), "message" := JStr(value)])
  {
    if call.ImageCall? then
      if value != "" then Reply(200, JObj(map["success" := JBool(true), "imageBase64" := JStr(value)]))
      else Reply(200, JObj(map["success" := JBool(false), "error" := JStr(ImageFailedMessage)]))
    else Reply(200, JObj(map["success" := JBool(true), "message" := JStr(value)]))
  }

  /** The outer `catch` of the pages handler and the legacy route. */
  function ServerError(e: Thrown): (r: Response)
    ensures r.status == 500 && r.allow == []
    ensures Contains(MessageOf(e), "API_KEY") ==> r.body == ErrorBody(ApiKeyMessage)
    ensures !Contains(MessageOf(e), "API_KEY") ==> r.body == ErrorBody(ErrorPrefix + MessageOf(e))
  {
    if Contains(MessageOf(e), "API_KEY") then Reply(500, ErrorBody(ApiKeyMessage))
    else Reply(500, ErrorBody(ErrorPrefix + MessageOf(e)))
  }

  /** How the retry loop ends: with a response, or by rethrowing to the outer `catch`. */
  datatype Step = Answered(response: Response) | Escaped(err: Thrown)

  /** The outcome of the call that ended the loop, the number of upstream calls made, and the waits between them. */
  datatype Run = Run(last: Outcome, attempts: nat, waits: seq<nat>)

  /**
   * The retry loop from attempt `attempt` on. Upstream call k has outcome
   * `upstream(k)`. A rate-limit error is retried after `RetryDelaysMs[k]` while
   * attempts remain; a returned value, any other error, or a rate limit on
   * the last attempt ends the loop.
   */
  function Attempts(attempt: nat, upstream: nat -> Outcome): (r: Run)
    requires attempt <= |RetryDelaysMs|
    ensures 1 <= r.attempts <= |RetryDelaysMs| + 1 - attempt
    ensures r.waits == RetryDelaysMs[attempt..attempt + r.attempts - 1]
    ensures forall k :: attempt <= k < attempt + r.attempts - 1 ==> RateLimited(upstream(k))
    ensures r.last == upstream(attempt + r.attempts - 1)
    ensures RateLimited(r.last) ==> attempt + r.attempts - 1 == |RetryDelaysMs|
    decreases |RetryDelaysMs| - attempt
  {
    var o := upstream(attempt);
    if RateLimited(o) && attempt < |RetryDelaysMs| then
      var rest := Attempts(attempt + 1, upstream);
      SliceCons(RetryDelaysMs, attempt, attempt + rest.attempts);
      Run(rest.last, rest.attempts + 1, [RetryDelaysMs[attempt]] + rest.waits)
    else Run(o, 1, [])
  }

  lemma SliceCons(s: seq<nat>, i: nat, j: nat)
    requires i < j <= |s|
    ensures s[i..j] == [s[i]] + s[i + 1..j]
  {
  }

  /**
   * What the loop does with the call that ended it: a returned value is
   * answered, a rate limit (only possible on the last attempt) is the 429 busy
   * answer, and any other error escapes.
   */
  function Finish(call: Call, last: Outcome): (s: Step)
    ensures last.Returns? ==> s == Answered(Answer(call, last.value))
    ensures RateLimited(last) ==> s == Answered(Reply(429, ErrorBody(BusyMessage)))
    ensures last.Throws? && !RateLimited(last) ==> s == Escaped(last.err)
  {
    if last.Returns? then Answered(Answer(call, last.value))
    else if IsRateLimitError(MessageOf(last.err)) then Answered(Reply(429, ErrorBody(BusyMessage)))
    else Escaped(last.err)
  }

  /** A handled request: the response, the upstream call (if any), how often it was made, and the waits. */
  datatype Handled = Handled(response: Response, call: Option<Call>, attempts: nat, waits: seq<nat>)

  /**
   * The pages-router `handler`. `verb` is `req.method` (`None` when absent)
   * and `body` is `req.body` (`None` when undefined); `client` is the error
   * `createGeminiClient` throws, if it does. The body is read with `?? {}`, so
   * an absent or null body is an empty object; the client is created before the
   * loop, so its failure is never retried.
   */
  function Handler(verb: Option<string>, body: Option<Json>, client: Option<Thrown>, upstream: nat -> Outcome): (h: Handled)
    ensures verb != Some("POST") ==>
      h == Handled(Response(405, ["POST"], ErrorBody(MethodNotAllowed)), None, 0, [])
    ensures verb == Some("POST") && client.Some? ==> h == Handled(ServerError(client.value), None, 0, [])
    ensures h.attempts <= |RetryDelaysMs| + 1
    ensures h.call.Some? <==> h.attempts > 0
    ensures h.attempts > 0 ==> h.waits == RetryDelaysMs[..h.attempts - 1]
    ensures h.attempts == 0 ==> h.waits == []
    ensures h.response.status == 429 ==>
      h.attempts == |RetryDelaysMs| + 1 && forall k :: 0 <= k < h.attempts ==> RateLimited(upstream(k))
  {
    if verb != Some("POST") then
      Handled(Response(405, ["POST"], ErrorBody(MethodNotAllowed)), None, 0, [])
    else
      var b := EffectiveBody(body);
      if client.Some? then Handled(ServerError(client.value), None, 0, [])
      else
        match CallFor(b, true)
        case None => Handled(Reply(400, ErrorBody(MessagesRequired)), None, 0, [])
        case Some(call) =>
          var run := Attempts(0, upstream);
          var step := Finish(call, run.last);
          var response := if step.Answered? then step.response else ServerError(step.err);
          Handled(response, Some(call), run.attempts, run.waits)
  }

  /** The body a pages-router request is read as. */
  function EffectiveBody(body: Option<Json>): Json {
    if body.None? || body == Some(JNull) then JObj(map[]) else body.value
  }

  /** The retry delays grow, so each wait is longer than the one before. */
  lemma RetryDelaysIncrease()
    ensures |RetryDelaysMs| + 1 == 3
    ensures forall i, j :: 0 <= i < j < |RetryDelaysMs| ==> RetryDelaysMs[i] < RetryDelaysMs[j]
  {
  }

  /**
   * An image prompt is served before `messages` is looked at: a POST whose
   * prompt is truthy never gets 400, whatever `messages` holds, and asks the
   * upstream for that image.
   */
  lemma ImagePromptTakesPrecedence(body: Option<Json>, upstream: nat -> Outcome)
    requires PropTruthy(Lookup(EffectiveBody(body), "generateImagePrompt"))
    ensures var h := Handler(Some("POST"), body, None, upstream);
      && h.response.status != 400
      && h.call == Some(ImageCall(Lookup(EffectiveBody(body), "generateImagePrompt").value))
  {
  }

  /** Without an image prompt, a body whose `messages` is not an array gets 400 and no upstream call. */
  lemma MissingMessagesRejected(body: Option<Json>, upstream: nat -> Outcome)
    requires !PropTruthy(Lookup(EffectiveBody(body), "generateImagePrompt"))
    requires !MessagesArray(EffectiveBody(body))
    ensures Handler(Some("POST"), body, None, upstream) ==
      Handled(Reply(400, ErrorBody(MessagesRequired)), None, 0, [])
  {
  }

  /** A generator that yields no image is a 200 with `success: false`, after one call. */
  lemma NullImageNotRetried(body: Option<Json>, upstream: nat -> Outcome)
    requires PropTruthy(Lookup(EffectiveBody(body), "generateImagePrompt"))
    requires upstream(0) == Returns("")
    ensures var h := Handler(Some("POST"), body, None, upstream);
      && h.attempts == 1
      && h.response == Reply(200, JObj(map["success" := JBool(false), "error" := JStr(ImageFailedMessage)]))
  {
  }

  /** An error that is not a rate limit is never retried: one call, then the outer 500. */
  lemma OtherErrorsNotRetried(body: Option<Json>, upstream: nat -> Outcome)
    requires CallFor(EffectiveBody(body), true).Some?
    requires upstream(0).Throws? && !RateLimited(upstream(0))
    ensures var h := Handler(Some("POST"), body, None, upstream);
      h.attempts == 1 && h.waits == [] && h.response == ServerError(upstream(0).err)
  {
  }

  /** Three rate limits in a row: 700 ms and 1400 ms waits, then 429 with the busy message. */
  lemma PersistentRateLimitIsBusy(body: Option<Json>, upstream: nat -> Outcome)
    requires CallFor(EffectiveBody(body), true).Some?
    requires RateLimited(upstream(0)) && RateLimited(upstream(1)) && RateLimited(upstream(2))
    ensures var h := Handler(Some("POST"), body, None, upstream);
      && h.attempts == 3 && h.waits == [700, 1400]
      && h.response == Reply(429, ErrorBody(BusyMessage))
  {
    var run := Attempts(0, upstream);
    assert run.attempts == 3;
  }

  /** A rate limit followed by a success: one wait of 700 ms and the successful answer. */
  lemma RetryThenSuccess(body: Option<Json>, upstream: nat -> Outcome)
    requires CallFor(EffectiveBody(body), true).Some?
    requires RateLimited(upstream(0)) && upstream(1).Returns?
    ensures var h := Handler(Some("POST"), body, None, upstream);
      && h.attempts == 2 && h.waits == [700]
      && h.response == Answer(CallFor(EffectiveBody(body), true).value, upstream(1).value)
  {
  }

  /** Upper case in the message does not hide a rate limit. */
  lemma RateLimitIgnoresCase(message: string)
    ensures IsRateLimitError(ToLower(message)) == IsRateLimitError(message)
  {
    var low := ToLower(message);
    assert ToLower(low) == low;
    if Contains(low, "429") {
      var i :| 0 <= i <= |low| && OccursAt(low, "429", i);
      assert low[i..i + 3] == "429";
      assert message[i..i + 3] == "429" by {
        assert LowerChar(message[i]) == '4' && LowerChar(message[i + 1]) == '2' && LowerChar(message[i + 2]) == '9';
      }
      assert OccursAt(message, "429", i);
    }
    if Contains(message, "429") {
      var i :| 0 <= i <= |message| && OccursAt(message, "429", i);
      assert message[i..i + 3] == "429";
      assert low[i..i + 3] == "429";
      assert OccursAt(low, "429", i);
    }
  }

  /** The body of a route request: the parsed JSON, or the error `request.json()` throws. */
  datatype RouteBody = Parsed(json: Json) | Malformed(message: string)

  /** A route's response and the upstream call it made, if any. */
  datatype Routed = Routed(response: Response, call: Option<Call>)

  /**
   * The legacy app-router `POST`. The body is destructured (a `null` body
   * throws), `mode` defaults to "ohisama", and the client is created before the
   * request is inspected, so a client failure answers even a request that
   * would have been rejected with 400.
   */
  function LegacyPost(body: RouteBody, client: Option<Thrown>, upstream: Outcome): (r: Routed)
    ensures body.Malformed? ==> r == Routed(ServerError(ErrorValue(body.message)), None)
    ensures body == Parsed(JNull) ==> r == Routed(ServerError(ErrorValue(NullDestructure)), None)
    ensures body.Parsed? && body.json != JNull && client.Some? ==> r == Routed(ServerError(client.value), None)
    ensures body.Parsed? && body.json != JNull && client.None? ==> r.call == CallFor(body.json, true)
    ensures r.call.None? && r.response.status != 500 ==> r.response == Reply(400, ErrorBody(MessagesRequired))
    ensures r.call.Some? && upstream.Returns? ==> r.response == Answer(r.call.value, upstream.value)
    ensures r.call.Some? && upstream.Throws? ==> r.response == ServerError(upstream.err)
  {
    match body
    case Malformed(m) => Routed(ServerError(ErrorValue(m)), None)
    case Parsed(b) =>
      if b == JNull then Routed(ServerError(ErrorValue(NullDestructure)), None)
      else if client.Some? then Routed(ServerError(client.value), None)
      else
        match CallFor(b, true)
        case None => Routed(Reply(400, ErrorBody(MessagesRequired)), None)
        case Some(call) =>
          if upstream.Returns? then Routed(Answer(call, upstream.value), Some(call))
          else Routed(ServerError(upstream.err), Some(call))
  }

  /** The legacy route answers a missing `mode` as if it were "ohisama". */
  lemma LegacyModeDefaults(b: Json, upstream: Outcome)
    requires b.JObj? && "mode" !in b.fields
    requires !PropTruthy(Lookup(b, "generateImagePrompt")) && MessagesArray(b)
    ensures LegacyPost(Parsed(b), None, upstream).call ==
      Some(ChatCall(Lookup(b, "messages").value.items, Defined(JStr("ohisama"))))
  {
  }

  /**
   * The pages handler and the legacy route agree on every object body when
   * the first upstream call is not rate limited: same call, same response.
   */
  lemma HandlerAgreesWithLegacyRoute(fields: map<string, Json>, client: Option<Thrown>, upstream: nat -> Outcome)
    requires !RateLimited(upstream(0))
    ensures var h := Handler(Some("POST"), Some(JObj(fields)), client, upstream);
      var r := LegacyPost(Parsed(JObj(fields)), client, upstream(0));
      h.response == r.response && h.call == r.call
  {
  }

  /** The current route's `catch`: status 500 and the raw message, with no prefix. */
  function RawError(e: Thrown): (r: Response)
    ensures r.status == 500 && r.body == ErrorBody(MessageOf(e))
  {
    Reply(500, ErrorBody(MessageOf(e)))
  }

  /**
   * The current app-router `POST`. An image prompt is served first (creating
   * the client only then); a chat request is validated before the client is
   * created; a successful chat answer carries only `message`; every error is
   * a 500 with the raw message.
   */
  function CurrentPost(body: RouteBody, client: Option<Thrown>, upstream: Outcome): (r: Routed)
    ensures body.Malformed? ==> r == Routed(RawError(ErrorValue(body.message)), None)
    ensures body == Parsed(JNull) ==> r == Routed(RawError(ErrorValue(NullPropertyRead)), None)
    ensures body.Parsed? && body.json != JNull && CallFor(body.json, false).None? ==>
      r == Routed(Reply(400, ErrorBody(MessagesRequired)), None)
    ensures body.Parsed? && body.json != JNull && client.Some? && CallFor(body.json, false).Some? ==>
      r == Routed(RawError(client.value), None)
    ensures body.Parsed? && body.json != JNull && client.None? ==> r.call == CallFor(body.json, false)
    ensures r.call.Some? && upstream.Throws? ==> r.response == RawError(upstream.err)
    ensures r.call.Some? && r.call.value.ChatCall? && upstream.Returns? ==>
      r.response == Reply(200, JObj(map["message" := JStr(upstream.value)]))
    ensures r.call.Some? && r.call.value.ImageCall? && upstream.Returns? ==>
      r.response == Reply(200,
        if upstream.value != "" then JObj(map["success" := JBool(true), "imageBase64" := JStr(upstream.value)])
        else JObj(map["success" := JBool(false), "error" := JStr(ImageFailedShort)]))
  {
    match body
    case Malformed(m) => Routed(RawError(ErrorValue(m)), None)
    case Parsed(b) =>
      if b == JNull then Routed(RawError(ErrorValue(NullPropertyRead)), None)
      else
        match CallFor(b, false)
        case None => Routed(Reply(400, ErrorBody(MessagesRequired)), None)
        case Some(call) =>
          if client.Some? then Routed(RawError(client.value), None)
          else if upstream.Throws? then Routed(RawError(upstream.err), Some(call))
          else if call.ChatCall? then Routed(Reply(200, JObj(map["message" := JStr(upstream.value)])), Some(call))
          else if upstream.value != "" then
            Routed(Reply(200, JObj(map["success" := JBool(true), "imageBase64" := JStr(upstream.value)])), Some(call))
          else Routed(Reply(200, JObj(map["success" := JBool(false), "error" := JStr(ImageFailedShort)])), Some(call))
  }

  /**
   * The two routes differ on a body without image prompt or message list:
   * the current one rejects it with 400 before creating a client, while the
   * legacy one reports the failing client first.
   */
  lemma ValidationOrderDiffers(b: Json, e: Thrown)
    requires b != JNull && CallFor(b, false).None?
    ensures CurrentPost(Parsed(b), Some(e), Returns("")).response.status == 400
    ensures LegacyPost(Parsed(b), Some(e), Returns("")).response.status == 500
  {
  }
}
