/**
 * `chatAPI.sendMessage` of the chat client: one fixed route, the session as
 * an optional query parameter, and a body with the message only.
 */
module Chat {
  import opened Wrappers
  import opened JsValues
  import opened StreamEvents
  import Stores

  const ChatRoute := "/api/v1/assistant/chat"

  /**
   * The query: `session=String(sessionId)` when `sessionId` is truthy,
   * nothing otherwise; `None` where `String` throws (every object is truthy).
   */
  function SessionQuery(sessionId: JsValue): (q: Option<seq<(string, string)>>)
    ensures q.None? <==> ToJsString(sessionId).None?
    ensures q.Some? ==> |q.value| <= 1 && (q.value != [] <==> Truthy(sessionId))
    ensures q.Some? && q.value != [] ==> q.value[0] == ("session", ToJsString(sessionId).value)
  {
    if !Truthy(sessionId) then Some([])
    else
      match ToJsString(sessionId)
      case None => None
      case Some(id) => Some([("session", id)])
  }

  /** The request `sendMessage` opens the stream with; `None` where building the query throws. */
  function ChatRequest(origin: string, message: JsValue, sessionId: JsValue, token: Option<string>): (r: Option<StreamRequest>)
    ensures r.None? <==> SessionQuery(sessionId).None?
    ensures r.Some? ==> r.value.origin == origin && r.value.path == ChatRoute && r.value.authorization == token
    ensures r.Some? ==> r.value.query == SessionQuery(sessionId).value
    ensures r.Some? && !message.Undefined? ==> r.value.body == [("message", message)]
    ensures r.Some? && message.Undefined? ==> r.value.body == []
  {
    match SessionQuery(sessionId)
    case None => None
    case Some(q) => Some(StreamRequest(origin, ChatRoute, q, token, StringifiedMembers([("message", message)])))
  }

  /** A numeric session id goes in the query as `String` writes it: a plain numeral below 10^21, exponent notation from there on. */
  lemma NumericSessionQuery(n: nat)
    requires n != 0
    ensures SessionQuery(Number(n)).Some? && |SessionQuery(Number(n)).value| == 1
    ensures n < ExponentThreshold ==> var t := SessionQuery(Number(n)).value[0].1; AllDigits(t) && DigitsValue(t) == n
    ensures n >= ExponentThreshold ==> var t := SessionQuery(Number(n)).value[0].1; ReadExponent(t) == Some(n) && ShortestExponent(t)
  {
  }

  /** The stream `sendMessage` awaits. */
  class ChatStream {
    const request: StreamRequest
    const handlers: StreamHandlers

    /** Starts a stream for `request`. */
    constructor Open(request: StreamRequest, callbacks: Callbacks, parse: string -> Option<JsValue>)
      ensures this.request == request
      ensures fresh(handlers) && handlers.callbacks == callbacks && handlers.parse == parse && handlers.calls == []
    {
      this.request := request;
      handlers := new StreamHandlers(callbacks, parse);
    }

    /** `sendMessage`: no stream when `String(sessionId)` throws; otherwise one opened with `ChatRequest`. */
    static method SendMessage(origin: string, message: JsValue, sessionId: JsValue,
                              callbacks: Callbacks, parse: string -> Option<JsValue>, user: Stores.UserStore)
      returns (stream: Option<ChatStream>)
      ensures stream.None? <==> ChatRequest(origin, message, sessionId, user.token).None?
      ensures stream.Some? ==> fresh(stream.value) && fresh(stream.value.handlers)
      ensures stream.Some? ==> stream.value.request == ChatRequest(origin, message, sessionId, user.token).value
      ensures stream.Some? ==> stream.value.handlers.callbacks == callbacks && stream.value.handlers.parse == parse
      ensures stream.Some? ==> stream.value.handlers.calls == []
    {
      var request := ChatRequest(origin, message, sessionId, user.token);
      if request.None? {
        return None;
      }
      var s := new ChatStream.Open(request.value, callbacks, parse);
      return Some(s);
    }
  }
}
