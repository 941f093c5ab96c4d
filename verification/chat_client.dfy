/**
 * What both pages do with a `fetch('/api/chat')`: the request's message list,
 * and how the answer (or the thrown error) is read. The network is replaced
 * by its result: the response's `ok` flag and parsed JSON object, or the error
 * that `fetch` or `response.json()` throws.
 */
module ChatClient {
  import opened Wrappers
  import opened Text
  import opened Json
  import opened Types
  import ChatApi

  /** The outcome of `fetch` followed by `response.json()`. */
  datatype Fetch = Fetched(ok: bool, data: map<string, Json>) | FetchFailed(err: ChatApi.Thrown)

  /** A property of the answer object. */
  function Field(data: map<string, Json>, key: string): (p: Prop)
    ensures key in data <==> p.Defined?
    ensures key in data ==> p.value == data[key]
  {
    Lookup(JObj(data), key)
  }

  /**
   * V8's message for calling `match` on a reply that is not a string; the exact
   * wording depends on the value and is not modelled.
   */
  const ReplyReadError := "response.match is not a function"

  /** `data.message`, when it is the string the parser can read. */
  function ReplyOf(data: map<string, Json>): (r: Option<string>)
    ensures r.Some? <==> "message" in data && data["message"].JStr?
    ensures r.Some? ==> data["message"] == JStr(r.value)
  {
    match Field(data, "message")
    case Defined(JStr(s)) => Some(s)
    case _ => None
  }

  /**
   * How a chat request ends: `None` when the answer is usable, else the
   * message of the error the `try` block throws. A non-ok answer throws
   * `new Error(data.error || 'API error')`.
   */
  function ChatFailure(f: Fetch): (r: Option<string>)
    ensures f.FetchFailed? ==> r == Some(ChatApi.MessageOf(f.err))
    ensures f.Fetched? && !f.ok && PropTruthy(Field(f.data, "error")) ==> r == Some(ToText(f.data["error"]))
    ensures f.Fetched? && !f.ok && !PropTruthy(Field(f.data, "error")) ==> r == Some("API error")
    ensures f.Fetched? && f.ok ==> (r.None? <==> ReplyOf(f.data).Some?)
    ensures f.Fetched? && f.ok && ReplyOf(f.data).None? ==> r == Some(ReplyReadError)
  {
    match f
    case FetchFailed(e) => Some(ChatApi.MessageOf(e))
    case Fetched(ok, data) =>
      if !ok then
        if PropTruthy(Field(data, "error")) then Some(ToText(data["error"])) else Some("API error")
      else if ReplyOf(data).None? then Some(ReplyReadError)
      else None
  }

  /** `imageData.success && imageData.imageBase64`: both truthy. */
  predicate ImageDelivered(data: map<string, Json>) {
    PropTruthy(Field(data, "success")) && PropTruthy(Field(data, "imageBase64"))
  }

  const DataUrlPrefix := "data:image/png;base64,"

  /** `data:image/png;base64,${imageData.imageBase64}`. */
  function DataUrl(data: map<string, Json>): (u: string)
    requires ImageDelivered(data)
    ensures StartsWith(u, DataUrlPrefix)
    ensures data["imageBase64"].JStr? ==> u == DataUrlPrefix + data["imageBase64"].s
  {
    DataUrlPrefix + ToText(data["imageBase64"])
  }

  /** One entry of the request's `messages`. */
  datatype ApiMessage = ApiMessage(role: Role, content: string, imageBase64: Option<string>)

  /**
   * The request's message list: role and content of every message, and the
   * image of the current send attached to every message that has a (truthy)
   * image URL, including earlier ones.
   */
  function ApiMessages(ms: seq<Message>, imageBase64: Option<string>): (r: seq<ApiMessage>)
    ensures |r| == |ms|
    ensures forall i :: 0 <= i < |ms| ==> r[i].role == ms[i].role && r[i].content == ms[i].content
    ensures forall i :: 0 <= i < |ms| ==>
      r[i].imageBase64 == (if ms[i].imageUrl.Some? && ms[i].imageUrl.value != "" then imageBase64 else None)
  {
    seq(|ms|, i requires 0 <= i < |ms| =>
      ApiMessage(ms[i].role, ms[i].content,
                 if ms[i].imageUrl.Some? && ms[i].imageUrl.value != "" then imageBase64 else None))
  }

  /** An ok answer carrying a string reply is read as that reply, with no error. */
  lemma OkReplyIsNotAFailure(data: map<string, Json>, reply: string)
    requires "message" in data && data["message"] == JStr(reply)
    ensures ChatFailure(Fetched(true, data)).None? && ReplyOf(data) == Some(reply)
  {
  }

  /**
   * The answers the pages-router handler gives are read back as intended: a
   * chat answer yields its message, and any non-200 error body yields its
   * error text as the thrown message.
   */
  lemma HandlerAnswersRead(call: ChatApi.Call, value: string, e: ChatApi.Thrown)
    ensures call.ChatCall? ==>
      ReplyOf(ChatApi.Answer(call, value).body.fields) == Some(value)
    ensures call.ImageCall? ==>
      (ImageDelivered(ChatApi.Answer(call, value).body.fields) <==> value != "")
    ensures ChatFailure(Fetched(false, ChatApi.ServerError(e).body.fields)) == Some(ChatApi.ServerError(e).body.fields["error"].s)
  {
  }
}
