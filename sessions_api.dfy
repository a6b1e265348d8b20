/**
 * `chatAPI.sendMessage` of the sessions client: the mode picks the backend
 * route, the session id always goes in the query and the body, and the
 * caller gets a handle whose `cancel` aborts the stream's controller.
 */
module Sessions {
  import opened Wrappers
  import opened JsValues
  import opened StreamEvents
  import Stores

  const LocalMode := "local"
  const OnlineMode := "online"

  /** `mode ? Mode.online : Mode.local`. */
  function ModeSegment(mode: JsValue): (r: string)
    ensures r == OnlineMode <==> Truthy(mode)
    ensures r == LocalMode <==> !Truthy(mode)
  {
    if Truthy(mode) then OnlineMode else LocalMode
  }

  function ChatPath(segment: string): string {
    "/api/v1/assistant/" + segment + "/chat"
  }

  /**
   * The request `sendMessage` opens the stream with; `None` where
   * `searchParams.append` throws converting `sessionId` to a string.
   */
  function SessionsRequest(origin: string, message: JsValue, sessionId: JsValue, mode: JsValue,
                           token: Option<string>): (r: Option<StreamRequest>)
    ensures r.None? <==> ToJsString(sessionId).None?
    ensures r.Some? ==> r.value.origin == origin && r.value.authorization == token
    ensures r.Some? ==> r.value.path == ChatPath(if Truthy(mode) then OnlineMode else LocalMode)
    ensures r.Some? ==> r.value.query == [("sessionId", ToJsString(sessionId).value)]
    ensures r.Some? && !message.Undefined? && !sessionId.Undefined? ==>
              r.value.body == [("message", message), ("sessionId", sessionId)]
    ensures r.Some? && !message.Undefined? && sessionId.Undefined? ==> r.value.body == [("message", message)]
    ensures r.Some? && message.Undefined? && !sessionId.Undefined? ==> r.value.body == [("sessionId", sessionId)]
    ensures r.Some? && message.Undefined? && sessionId.Undefined? ==> r.value.body == []
  {
    var members := [("message", message), ("sessionId", sessionId)];
    assert StringifiedMembers(members[1..][1..]) == [];
    assert sessionId.Undefined? ==> StringifiedMembers(members[1..]) == [];
    match ToJsString(sessionId)
    case None => None
    case Some(id) =>
      Some(StreamRequest(origin, ChatPath(ModeSegment(mode)), [("sessionId", id)], token,
                         StringifiedMembers(members)))
  }

  /**
   * The mode has no say in whether the request is built, and the route
   * depends on its truthiness only; the two routes differ.
   */
  lemma ModeRoutes(origin: string, message: JsValue, sessionId: JsValue, m1: JsValue, m2: JsValue,
                   token: Option<string>)
    ensures SessionsRequest(origin, message, sessionId, m1, token).Some?
            <==> SessionsRequest(origin, message, sessionId, m2, token).Some?
    ensures SessionsRequest(origin, message, sessionId, m1, token).Some? ==>
              (SessionsRequest(origin, message, sessionId, m1, token).value.path
               == SessionsRequest(origin, message, sessionId, m2, token).value.path
               <==> (Truthy(m1) <==> Truthy(m2)))
  {
  }

  /** The handle `sendMessage` returns, with the stream it started. */
  class StreamHandle {
    const request: StreamRequest
    const handlers: StreamHandlers
    const controller: AbortController
    /** The `signal` option given to the transport. */
    const signal: AbortSignal

    /** The transport watches the handle's own controller. */
    ghost predicate Valid() {
      signal == controller.signal
    }

    /** Starts a stream for `request`, watched by a new controller's signal. */
    constructor Open(request: StreamRequest, callbacks: Callbacks, parse: string -> Option<JsValue>)
      ensures this.request == request
      ensures fresh(handlers) && handlers.callbacks == callbacks && handlers.parse == parse && handlers.calls == []
      ensures Valid() && fresh(controller) && fresh(signal)
      ensures !signal.aborted && signal.abortEvents == 0
    {
      var c := new AbortController();
      controller := c;
      signal := c.signal;
      this.request := request;
      handlers := new StreamHandlers(callbacks, parse);
    }

    /**
     * `sendMessage`: no stream when building the URL throws (line 22 runs
     * before the controller is created); otherwise the handle of a stream
     * opened with `SessionsRequest`.
     */
    static method SendMessage(origin: string, message: JsValue, sessionId: JsValue, mode: JsValue,
                              callbacks: Callbacks, parse: string -> Option<JsValue>, user: Stores.UserStore)
      returns (handle: Option<StreamHandle>)
      ensures handle.None? <==> SessionsRequest(origin, message, sessionId, mode, user.token).None?
      ensures handle.Some? ==> fresh(handle.value) && handle.value.Valid()
      ensures handle.Some? ==> handle.value.request == SessionsRequest(origin, message, sessionId, mode, user.token).value
      ensures handle.Some? ==> fresh(handle.value.handlers) && fresh(handle.value.controller) && fresh(handle.value.signal)
      ensures handle.Some? ==> handle.value.handlers.callbacks == callbacks && handle.value.handlers.parse == parse
      ensures handle.Some? ==> handle.value.handlers.calls == [] && !handle.value.signal.aborted && handle.value.signal.abortEvents == 0
    {
      var request := SessionsRequest(origin, message, sessionId, mode, user.token);
      if request.None? {
        return None;
      }
      var h := new StreamHandle.Open(request.value, callbacks, parse);
      return Some(h);
    }

    /** `cancel: () => controller.abort()`; aborting twice fires no second event. */
    method Cancel()
      requires Valid()
      modifies signal
      ensures signal.aborted
      ensures signal.abortEvents == old(signal.abortEvents) + (if old(signal.aborted) then 0 else 1)
    {
      controller.Abort();
    }
  }
}
