# Streaming chat client core, modelled in Dafny

This project models the parts of the browser chat client that have precise behaviour:

- The **recovery cache** (`MessageCache`) keeps one JSON record `{content, lastChunkId}` per session. It lives in `localStorage` under `"sessionCache_" + sessionId`.
- The **streaming clients** are the two `chatAPI.sendMessage` functions. The model covers:
  - the request each one opens: route, query, `Authorization` header and body members;
  - the `onmessage` normaliser, which turns an event's data into the text given to `onChunk`;
  - the forwarding of `onclose` and `onerror`;
  - the sessions client's cancel handle, an `AbortController`.
- The **user token store** holds an in-memory `token` and the persisted `'token'` entry.

`localStorage` is the `WebStorage.Storage` class. It holds a `map<string, string>` that the cache and the token store share.

Modules:
- `Wrappers` defines `Option`.
- `JsValues` covers JavaScript values, truthiness, `String(v)` and the members `JSON.stringify` keeps.
- `CacheJson` is the JSON text of a cache record, with a proved round trip.
- `WebStorage` models `localStorage`.
- `UtilMessageCache` models the cache.
- `ChunkNormaliser` holds the `/\r\n/g` and `/^data:\s?/gm` replacements as recursive scanners. It also gives a reference definition of ECMAScript global replacement (repeated leftmost-match search), proved equal to the scanner.
- `StreamEvents` holds the transport callbacks and the abort controller.
- `Sessions` models `src/services/sessions.js`.
- `Chat` models `src/services/chat.js`.
- `Stores` models `src/stores/user.ts`.

The two `onmessage`, `onclose` and `onerror` handlers in `sessions.js` (lines 39-61) and `chat.js` (lines 25-47) are the same code. They are modelled once, in `StreamEvents.StreamHandlers` and `ChunkNormaliser`.

The clients never call the cache. They do not persist chunks, send a last-chunk-id header, look for an end-of-stream sentinel or check the response status. The cache is a standalone table.

Inputs from the environment are parameters:
- `quotaExceeded` says whether a `setItem` throws.
- `parse` stands for `JSON.parse` of an event's data. It returns `None` where the call throws.
- `origin` stands for `window.location.origin`.

## Model

| member | source | states |
|---|---|---|
| `JsValues.Truthy` | src/services/sessions.js:17 | a value is falsy exactly when it is one of ToBoolean's six falsy values: `undefined`, `null`, `false`, `0`, `NaN`, `""` |
| `JsValues.ToJsString` | src/services/sessions.js:47 | `String(v)` throws exactly for an object with its own `toString` member that is not a function; otherwise a string is returned unchanged, a number gives `IntegerText`, any other value gives non-empty text, and an ordinary object gives `[object Object]` |
| `JsValues.DecimalText` | src/services/chat.js:14 | the decimal numeral of a natural number is a non-empty run of digits with no leading zero |
| `JsValues.DecimalRoundTrip` | src/services/chat.js:14 | reading the decimal numeral of `n` back gives `n` |
| `JsValues.ExponentRoundTrip` | src/services/chat.js:14 | exponent notation (`d[.ddd]e+x`, significant digits only) reads back as the number it was written for |
| `JsValues.NaturalText` | src/services/chat.js:14 | below 10^21 `String(n)` is a run of digits denoting `n`; from 10^21 on it is exponent notation in its shortest form (no zero at either end of the mantissa, no leading zero in the exponent) that reads back as `n` |
| `JsValues.IntegerText` | src/services/chat.js:14 | `String(n)` of a negative integer is a minus sign and the text of its magnitude; below 10^21 in magnitude that text is digits denoting the magnitude, from 10^21 on shortest exponent notation reading back as it |
| `JsValues.ExponentTextShortest` | src/services/chat.js:14 | the exponent text of every number from 10 on has the shortest form: its mantissa starts and ends with a non-zero digit and its exponent has no leading zero |
| `JsValues.ShortestExponentExamples` | src/services/chat.js:14 | `1e+21` has the shortest form; `1.0e+21` and `0.1e+22`, which denote the same number, do not |
| `JsValues.PowerOfTenText` | src/services/sessions.js:47 | from 10^21 on, `String(10^k)` is `1e+k`; so `String(1e21)` is `"1e+21"` |
| `JsValues.StringifiedMembers` | src/services/sessions.js:32-35 | `JSON.stringify` keeps exactly the members whose value is not `undefined`, and all of them when there is no `undefined` |
| `CacheJson.Escape` | src/utils/UtilMessageCache.ts:25 | the escaped content of a string literal is at least as long as the string and holds no control character |
| `CacheJson.Serialize` | src/utils/UtilMessageCache.ts:19-25 | the stored text of a record begins with `{"content":"` |
| `CacheJson.ParseEscaped` | src/utils/UtilMessageCache.ts:25 | a JSON string literal written for `s` reads back as `s`, leaving the text after the closing quote |
| `CacheJson.Parse` | src/utils/UtilMessageCache.ts:41 | a text reads as a record only when it begins with `{"content":"` and ends with `}`; the empty text reads as nothing |
| `CacheJson.RoundTrip` | src/utils/UtilMessageCache.ts:19-41 | every record read back from its own JSON text is that record, whether `lastChunkId` is null or a string |
| `CacheJson.SerializeInjective` | src/utils/UtilMessageCache.ts:25 | distinct records are stored as distinct texts |
| `WebStorage.Lookup` | src/utils/UtilMessageCache.ts:38 | the entry under a key is the stored text, and there is none exactly when the key is absent |
| `WebStorage.Storage.GetItem` | src/utils/UtilMessageCache.ts:38 | `getItem` returns the stored text, or null when the key is absent |
| `WebStorage.Storage.SetItem` | src/utils/UtilMessageCache.ts:25 | `setItem` stores the value under the key; on a quota error it reports failure and the store is unchanged |
| `WebStorage.Storage.RemoveItem` | src/utils/UtilMessageCache.ts:53 | `removeItem` deletes that key and no other |
| `UtilMessageCache.CacheKey` | src/utils/UtilMessageCache.ts:10 | a session's key is `"sessionCache_"` followed by the session id |
| `UtilMessageCache.CacheKeyInjective` | src/utils/UtilMessageCache.ts:10 | different sessions have different keys |
| `UtilMessageCache.SavedItems` | src/utils/UtilMessageCache.ts:16-29 | empty id, empty content or a failed write leave the store unchanged; otherwise only the session's own key changes |
| `UtilMessageCache.Read` | src/utils/UtilMessageCache.ts:34-46 | an empty id and an absent key read as null |
| `UtilMessageCache.RemovedItems` | src/utils/UtilMessageCache.ts:51-54 | `remove("")` changes nothing; otherwise the session's key is gone and every other entry is kept |
| `UtilMessageCache.MessageCache.Save` | src/utils/UtilMessageCache.ts:16-29 | the new store is `SavedItems` of the old store |
| `UtilMessageCache.MessageCache.Get` | src/utils/UtilMessageCache.ts:34-46 | returns `Read` of the store and never raises: text that does not read as a record yields null |
| `UtilMessageCache.MessageCache.Remove` | src/utils/UtilMessageCache.ts:51-54 | the new store is `RemovedItems` of the old store |
| `UtilMessageCache.MessageCache.Has` | src/utils/UtilMessageCache.ts:59-61 | true exactly when `get` returns a record |
| `UtilMessageCache.GetAfterSave` | src/utils/UtilMessageCache.ts:16-41 | after a successful save with non-empty id and content, `get` returns exactly `{content, lastChunkId}`, also when the id is null |
| `UtilMessageCache.SaveOverwrites` | src/utils/UtilMessageCache.ts:19-25 | a second save to the same session replaces the first entirely: last write wins |
| `UtilMessageCache.SessionsIsolated` | src/utils/UtilMessageCache.ts:25-53 | saving or removing one session never changes what another session reads |
| `UtilMessageCache.GetAfterRemove` | src/utils/UtilMessageCache.ts:51-54 | after `remove(s)` with a non-empty `s`, `get(s)` is null |
| `UtilMessageCache.CorruptEntryMisses` | src/utils/UtilMessageCache.ts:37-45 | a stored text that does not parse reads as null instead of raising |
| `UtilMessageCache.CacheKeyNotToken` | src/utils/UtilMessageCache.ts:10 | no cache key collides with the token store's `'token'` entry |
| `ChunkNormaliser.ReplaceCrlf` | src/services/sessions.js:48 | the CRLF replacement never lengthens its input |
| `ChunkNormaliser.NoCrlfUnchanged` | src/services/sessions.js:48 | text without CRLF passes through the replacement unchanged |
| `ChunkNormaliser.CrlfShortens` | src/services/sessions.js:48 | text with a CRLF comes out strictly shorter |
| `ChunkNormaliser.CrlfFixedPoint` | src/services/sessions.js:48 | the replacement leaves its input unchanged exactly when the input has no CRLF |
| `ChunkNormaliser.ReplaceCrlfAppend` | src/services/sessions.js:48 | the replacement works piece by piece, unless a CR ends one piece and an LF starts the next |
| `ChunkNormaliser.CrlfBecomesLf` | src/services/sessions.js:48 | each CRLF, wherever it stands, becomes one LF |
| `ChunkNormaliser.MatchLength` | src/services/sessions.js:49 | a match of `^data:\s?` takes `data:` and at most one following whitespace character, and stays inside the string |
| `ChunkNormaliser.StripDataPrefixes` | src/services/sessions.js:49 | `replace(/^data:\s?/gm, "")` never lengthens its input and equals the reference global replacement from `lastIndex` 0 |
| `ChunkNormaliser.StripFrom` | src/services/sessions.js:49 | the scanner's output is never longer than the input it scans |
| `ChunkNormaliser.FirstMatch` | src/services/sessions.js:49 | the regex search returns, if anything, a position at or after `lastIndex` where `^data:\s?` matches |
| `ChunkNormaliser.FirstMatchIsLeftmost` | src/services/sessions.js:49 | the position found is the leftmost match at or after `lastIndex`, and nothing is found only when no match exists |
| `ChunkNormaliser.StripFromIsReplaceAll` | src/services/sessions.js:49 | the scanner equals ECMAScript's global replacement from any `lastIndex`: a leftmost search, non-overlapping, against the original string |
| `ChunkNormaliser.ReplaceAllStep` | src/services/sessions.js:49 | a position where no match starts keeps its character in the reference replacement |
| `ChunkNormaliser.NoMatchKeeps` | src/services/sessions.js:49 | with no line-start `data:` after a position, the scanner copies the rest unchanged |
| `ChunkNormaliser.MatchShortens` | src/services/sessions.js:49 | a line-start `data:` ahead of the scan makes the output strictly shorter |
| `ChunkNormaliser.StripFixedPoint` | src/services/sessions.js:49 | the prefix removal changes its input exactly when some line begins with `data:` |
| `ChunkNormaliser.StripNotIdempotent` | src/services/sessions.js:49 | `"data:data:x"` becomes `"data:x"`, which a second pass turns into `"x"` |
| `ChunkNormaliser.StripTakesNewline` | src/services/sessions.js:49 | `\s` takes a line feed: `"data:\nX"` becomes `"X"`; `"a\ndata: b"` becomes `"a\nb"` |
| `ChunkNormaliser.Decoded` | src/services/sessions.js:41-47 | undecodable data is kept raw; a decoded value is turned into text with `String`, and there is no text exactly when `String` throws |
| `ChunkNormaliser.ChunkText` | src/services/sessions.js:40-49 | an event yields no text exactly when its data is empty or `String` throws for its decoded value |
| `ChunkNormaliser.PassThrough` | src/services/chat.js:33-37 | data that is not JSON, has no CRLF and has no line starting with `data:` is delivered unchanged |
| `ChunkNormaliser.Deliver` | src/services/sessions.js:39-52 | handling a list of events yields at most one text per event, and none for a list of empty events |
| `ChunkNormaliser.DeliverAppend` | src/services/sessions.js:39-52 | event texts come out in event order; later events add only after earlier ones |
| `ChunkNormaliser.DeliverCount` | src/services/chat.js:25-38 | exactly one text per event with non-empty data whose decoded value `String` converts, counted by an independent function |
| `StreamEvents.ChunkCalls` | src/services/sessions.js:51 | one `onChunk` call per text, of that text, in order |
| `StreamEvents.ChunkCallsAppend` | src/services/sessions.js:51 | the calls for two runs of texts are the calls of the first followed by those of the second |
| `StreamEvents.EventCalls` | src/services/sessions.js:39-52 | without `onChunk` no call is made; with it, exactly one `onChunk` call per event with non-empty data whose conversion does not throw, carrying the delivered texts in order |
| `StreamEvents.ThrowingEventMakesNoCall` | src/services/sessions.js:44-51 | data decoding to an object with its own `toString`, such as `{"toString":0}`, makes no `onChunk` call |
| `StreamEvents.EventCallsAppend` | src/services/sessions.js:39-52 | handling events one after another gives the callback calls of each, in arrival order |
| `StreamEvents.AbortController.constructor` | src/services/sessions.js:24 | a new controller owns a fresh signal that is not aborted |
| `StreamEvents.AbortController.Abort` | src/services/sessions.js:65 | `abort()` leaves the signal aborted and fires the abort event only the first time |
| `StreamEvents.StreamHandlers.constructor` | src/services/sessions.js:26-39 | the handlers start with no callback calls made |
| `StreamEvents.StreamHandlers.OnMessage` | src/services/sessions.js:39-52 | one `onChunk` call with the normalised text, or none for empty data, a missing `onChunk`, or a `String` that throws; it raises exactly in that last case |
| `StreamEvents.StreamHandlers.OnClose` | src/services/sessions.js:54-56 | `onclose` forwards to `onFinish` when one was given |
| `StreamEvents.StreamHandlers.OnError` | src/services/sessions.js:58-61 | `onerror` forwards the error to `onError` when one was given, and does not rethrow |
| `Sessions.ModeSegment` | src/services/sessions.js:12-17 | a truthy mode selects `"online"`, a falsy one `"local"` |
| `Sessions.SessionsRequest` | src/services/sessions.js:17-35 | there is no request exactly when `String(sessionId)` throws at line 22; otherwise the path is `/api/v1/assistant/<mode>/chat`, `sessionId=String(sessionId)` is always in the query, and the token is the `Authorization` header, where a null token is the header text `null`; the body holds `message` and `sessionId` except those that are `undefined` |
| `Sessions.ModeRoutes` | src/services/sessions.js:17-22 | the mode does not decide whether a request is built; two modes give the same route exactly when they are equally truthy |
| `Sessions.StreamHandle.SendMessage` | src/services/sessions.js:11-67 | no handle when building the request throws; otherwise the handle's stream uses the request above, fresh handlers and the signal of its own new controller |
| `Sessions.StreamHandle.Cancel` | src/services/sessions.js:64-67 | `cancel` aborts that controller; cancelling twice fires no second abort |
| `Chat.SessionQuery` | src/services/chat.js:13-15 | building the query throws exactly when `String(sessionId)` does; otherwise the `session` parameter is present exactly when `sessionId` is truthy, with value `String(sessionId)` |
| `Chat.ChatRequest` | src/services/chat.js:10-23 | no request exactly when the query throws; otherwise the path is always `/api/v1/assistant/chat`, the token is the `Authorization` header, where a null token is the header text `null`, and the body holds `message` unless it is `undefined`, when it is `{}` |
| `Chat.NumericSessionQuery` | src/services/chat.js:13-15 | a positive numeric session id is sent as digits denoting it below 10^21, and from 10^21 on as shortest exponent notation reading back as it |
| `Chat.ChatStream.SendMessage` | src/services/chat.js:9-48 | no stream when the request throws; otherwise the stream uses the request above and fresh handlers |
| `Stores.InitialToken` | src/stores/user.ts:6 | the initial token is the stored `'token'` entry, or null when there is none |
| `Stores.IsTruthyToken` | src/stores/user.ts:10 | `if (newToken)` on `string \| null` is JavaScript truthiness of `null` or of the string |
| `Stores.AfterSetToken` | src/stores/user.ts:9-16 | a truthy token is stored and held, so a reload restores it; a falsy one clears memory only; a failing write raises and changes nothing; no other key is touched |
| `Stores.AfterClearToken` | src/stores/user.ts:19-22 | the entry is removed and memory cleared, so a reload gives null; no other key is touched |
| `Stores.SetNullThenReload` | src/stores/user.ts:13-15 | after `setToken(null)` or `setToken("")`, a reload brings back the previously stored token |
| `Stores.UserStore.constructor` | src/stores/user.ts:6 | the store starts with the token read from storage |
| `Stores.UserStore.SetToken` | src/stores/user.ts:9-16 | the new token and storage are `AfterSetToken` of the old ones |
| `Stores.UserStore.ClearToken` | src/stores/user.ts:19-22 | the new token and storage are `AfterClearToken` of the old ones |

## Left out

- The transport (`fetchEventSource`) is foreign library code with concurrency. The model leaves out connecting, reading the event stream, retrying after `onerror` returns, `openWhenHidden`, and tearing down the connection on abort. The transport only calls the handlers, so no event order is imposed beyond the order of those calls.
- The promises are left out: the `finished` promise of the sessions handle (sessions.js:26, 66) and the promise that `chat.js`'s `sendMessage` awaits (chat.js:17). They settle as the transport decides.
- The REST helpers next to `sendMessage` (history, create, rename, delete, messages) are plain request wrappers. They are not modelled.
- A null token reaches `fetch` as the `Authorization` header text `null`. The model keeps it as `None` in `StreamRequest.authorization` and does not model how `fetch` converts header values.
- `parse` stands for `JSON.parse` of event data. It is a parameter, not an implementation of JSON.
- The request body is modelled as the members `JSON.stringify` writes, not as JSON text. Query values are modelled before URL percent-encoding.
- `JsValues.JsValue` has no arrays, non-integral numbers, infinities, symbols or BigInts. So `String` of those values, and their truthiness, are not modelled. An object is either ordinary or has an own `toString` that is not a function, which is all `JSON.parse` produces. A caller-supplied `sessionId` with its own callable `toString` or `valueOf` is not represented.
- StreamEvents.StreamHandlers.OnMessage: the TypeError that `String` throws is modelled only as the result `raised`. The transport then passes the exception to `onerror` and reconnects; that is transport behaviour and is not modelled.
- Sessions.StreamHandle.SendMessage and Chat.ChatStream.SendMessage: when `String(sessionId)` throws, the model gives no stream. It does not model the exception that the sessions client throws synchronously, or the rejected promise of the chat client's `async` function.
- JsValues.ToJsString: a number is an unbounded integer, written with its exact digits. JavaScript numbers are 64-bit doubles, and Number::toString writes the shortest digits that identify the double. Above 2^53 the two can differ: for the double 123456789012345683968 JavaScript writes `123456789012345680000`, the model `123456789012345683968`. The switch to exponent notation at 10^21 is modelled.
- Dafny characters are Unicode scalar values, not UTF-16 code units. Lone surrogates cannot occur. `CacheJson` does not read `\u` escapes of surrogate halves, and `JSON.stringify`'s escaping of lone surrogates is left out.
- UtilMessageCache.Read: `CacheJson.Parse` reads only the layout `Serialize` writes. Any other text, including valid JSON with another layout or with whitespace, reads as a miss. In the source, `get` returns whatever `JSON.parse` yields, unchecked.
- The `console.warn` logging in `save` and `get` is left out.
- `localStorage.getItem` and `removeItem` never fail in the model. `setItem` fails only by a quota error, which the `quotaExceeded` input chooses.
- Stores.UserStore.SetToken: the exception that a failing `setItem` raises is modelled only as the result `raised`. The model says nothing about where the exception goes.
- Vue reactivity of `token` and the store's singleton identity under Pinia are not modelled.
