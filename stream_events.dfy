/**
 * The callbacks both streaming clients hand to the event-stream transport,
 * and the abort controller whose signal the transport watches. The
 * transport itself (connecting, retrying, reading events) is not modelled:
 * it is what calls `OnMessage`, `OnClose` and `OnError`.
 */
module StreamEvents {
  import opened Wrappers
  import opened JsValues
  import opened ChunkNormaliser

  /**
   * The request a client hands to the transport: `new URL(path, origin)`
   * with its query parameters (before percent-encoding), the
   * `Authorization` header and the members of the JSON body. The method is
   * always POST and the content type `application/json`.
   */
  datatype StreamRequest = StreamRequest(
    origin: string,
    path: string,
    query: seq<(string, string)>,
    // `None` is the JavaScript `null` token, which `fetch` sends as the header text "null".
    authorization: Option<string>,
    body: seq<(string, JsValue)>)

  /** An error the transport reports, passed on unchanged. */
  datatype TransportError = TransportError(description: string)

  /** One call the handlers make on the caller's callbacks. */
  datatype SinkCall = OnChunkCall(text: string) | OnFinishCall | OnErrorCall(error: TransportError)

  /** Which of the optional callbacks `onChunk`, `onFinish`, `onError` the caller supplied. */
  datatype Callbacks = Callbacks(hasOnChunk: bool, hasOnFinish: bool, hasOnError: bool)

  /** The `onChunk` calls for a list of delivered texts. */
  function ChunkCalls(texts: seq<string>): (r: seq<SinkCall>)
    ensures |r| == |texts|
    ensures forall k :: 0 <= k < |r| ==> r[k] == OnChunkCall(texts[k])
  {
    if texts == [] then [] else [OnChunkCall(texts[0])] + ChunkCalls(texts[1..])
  }

  lemma ChunkCallsAppend(a: seq<string>, b: seq<string>)
    ensures ChunkCalls(a + b) == ChunkCalls(a) + ChunkCalls(b)
  {
  }

  /** The calls on the callbacks made while handling `events` in arrival order. */
  function EventCalls(callbacks: Callbacks, parse: string -> Option<JsValue>, events: seq<string>): (r: seq<SinkCall>)
    ensures !callbacks.hasOnChunk ==> r == []
    ensures callbacks.hasOnChunk ==> |r| == |Deliver(parse, events)| == CountConverted(parse, events)
    ensures forall k :: 0 <= k < |r| ==> r[k] == OnChunkCall(Deliver(parse, events)[k])
  {
    DeliverCount(parse, events);
    if callbacks.hasOnChunk then ChunkCalls(Deliver(parse, events)) else []
  }

  /** Handling two runs of events one after the other gives the calls of both, in that order. */
  lemma EventCallsAppend(callbacks: Callbacks, parse: string -> Option<JsValue>, a: seq<string>, b: seq<string>)
    ensures EventCalls(callbacks, parse, a + b) == EventCalls(callbacks, parse, a) + EventCalls(callbacks, parse, b)
  {
    DeliverAppend(parse, a, b);
    ChunkCallsAppend(Deliver(parse, a), Deliver(parse, b));
  }

  /**
   * An event whose data decodes to an object with its own `toString` (such
   * as `{"toString":0}`) makes no call: `String` throws before `onChunk`.
   */
  lemma ThrowingEventMakesNoCall(callbacks: Callbacks, parse: string -> Option<JsValue>, data: string)
    requires parse(data) == Some(PlainObject(true))
    ensures ChunkText(parse, data) == None
    ensures EventCalls(callbacks, parse, [data]) == []
  {
    assert [data][1..] == [];
  }

  /** `AbortSignal`: aborted at most once, with one `abort` event. */
  class AbortSignal {
    var aborted: bool
    var abortEvents: nat

    constructor ()
      ensures !aborted && abortEvents == 0
    {
      aborted := false;
      abortEvents := 0;
    }
  }

  /** `AbortController`: owns one signal; `abort()` signals it unless already aborted. */
  class AbortController {
    const signal: AbortSignal

    constructor ()
      ensures fresh(signal) && !signal.aborted && signal.abortEvents == 0
    {
      signal := new AbortSignal();
    }

    method Abort()
      modifies signal
      ensures signal.aborted
      ensures signal.abortEvents == old(signal.abortEvents) + (if old(signal.aborted) then 0 else 1)
    {
      if !signal.aborted {
        signal.aborted := true;
        signal.abortEvents := signal.abortEvents + 1;
      }
    }
  }

  /** The `onmessage`, `onclose` and `onerror` options of one stream, with a log of the callback calls. */
  class StreamHandlers {
    const callbacks: Callbacks
    const parse: string -> Option<JsValue>
    var calls: seq<SinkCall>

    constructor (callbacks: Callbacks, parse: string -> Option<JsValue>)
      ensures this.callbacks == callbacks && this.parse == parse && calls == []
    {
      this.callbacks := callbacks;
      this.parse := parse;
      calls := [];
    }

    /**
     * `onmessage`: empty data is skipped; otherwise `onChunk` gets the
     * normalised text. `raised` is the TypeError `String` throws for a
     * decoded object with its own `toString`, which escapes before `onChunk`.
     */
    method OnMessage(data: string) returns (raised: bool)
      modifies this
      ensures raised <==> data != "" && ConversionThrows(parse, data)
      ensures calls == old(calls) + EventCalls(callbacks, parse, [data])
    {
      raised := false;
      if data == "" {
        return;
      }
      var chunk := data;
      var decoded := parse(data);
      if decoded.Some? {
        if decoded.value.Str? {
          chunk := decoded.value.s;
        } else {
          var text := ToJsString(decoded.value);
          if text.None? {
            raised := true;
            assert [data][1..] == [];
            return;
          }
          chunk := text.value;
        }
      }
      chunk := ReplaceCrlf(chunk);
      chunk := StripDataPrefixes(chunk);
      assert [data][1..] == [];
      assert Deliver(parse, [data]) == [chunk];
      if callbacks.hasOnChunk {
        calls := calls + [OnChunkCall(chunk)];
      }
    }

    /** `onclose`: forwards to `onFinish`. */
    method OnClose()
      modifies this
      ensures calls == old(calls) + (if callbacks.hasOnFinish then [OnFinishCall] else [])
    {
      if callbacks.hasOnFinish {
        calls := calls + [OnFinishCall];
      }
    }

    /** `onerror`: forwards to `onError` and returns normally (the transport then retries). */
    method OnError(err: TransportError)
      modifies this
      ensures calls == old(calls) + (if callbacks.hasOnError then [OnErrorCall(err)] else [])
    {
      if callbacks.hasOnError {
        calls := calls + [OnErrorCall(err)];
      }
    }
  }
}
