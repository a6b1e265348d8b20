/**
 * What the `onmessage` handlers of both streaming clients do to an event's
 * data before handing it to `onChunk`: decode it as JSON when possible,
 * convert a non-string result with `String`, replace every CRLF by LF
 * (`/\r\n/g`), then delete every match of `/^data:\s?/gm`.
 */
module ChunkNormaliser {
  import opened Wrappers
  import opened JsValues

  /** `LineTerminator` of ECMAScript: where `^` matches under the `m` flag. */
  predicate IsLineTerminator(c: char) {
    c == '\n' || c == '\r' || c == '\U{2028}' || c == '\U{2029}'
  }

  /** The characters `\s` matches: ECMAScript `WhiteSpace` and `LineTerminator`. */
  predicate IsRegExpSpace(c: char) {
    c == '\t' || c == '\U{B}' || c == '\U{C}' || c == ' ' || c == '\U{A0}' || c == '\U{FEFF}'
    || c == '\U{1680}' || ('\U{2000}' <= c <= '\U{200A}') || c == '\U{202F}' || c == '\U{205F}'
    || c == '\U{3000}' || IsLineTerminator(c)
  }

  // ---------------------------------------------------------------- /\r\n/g

  predicate CrlfAt(s: string, i: int) {
    0 <= i && i + 1 < |s| && s[i] == '\r' && s[i + 1] == '\n'
  }

  predicate HasCrlf(s: string) {
    exists i :: 0 <= i < |s| && CrlfAt(s, i)
  }

  /** `s.replace(/\r\n/g, "\n")`, scanning left to right. */
  function ReplaceCrlf(s: string): (r: string)
    ensures |r| <= |s|
    decreases |s|
  {
    if |s| < 2 then s
    else if s[0] == '\r' && s[1] == '\n' then "\n" + ReplaceCrlf(s[2..])
    else [s[0]] + ReplaceCrlf(s[1..])
  }

  /** Text with no CRLF is left as it is. */
  lemma {:induction false} NoCrlfUnchanged(s: string)
    requires !HasCrlf(s)
    ensures ReplaceCrlf(s) == s
    decreases |s|
  {
    if |s| >= 2 {
      assert !CrlfAt(s, 0);
      assert !HasCrlf(s[1..]) by {
        forall i | CrlfAt(s[1..], i) ensures CrlfAt(s, i + 1) { }
      }
      NoCrlfUnchanged(s[1..]);
    }
  }

  /** Text with a CRLF comes out strictly shorter. */
  lemma {:induction false} CrlfShortens(s: string)
    requires HasCrlf(s)
    ensures |ReplaceCrlf(s)| < |s|
    decreases |s|
  {
    var i :| 0 <= i < |s| && CrlfAt(s, i);
    if !CrlfAt(s, 0) {
      assert CrlfAt(s[1..], i - 1);
      CrlfShortens(s[1..]);
    }
  }

  /** The CRLF replacement changes its input exactly when the input holds a CRLF. */
  lemma CrlfFixedPoint(s: string)
    ensures ReplaceCrlf(s) == s <==> !HasCrlf(s)
  {
    if HasCrlf(s) {
      CrlfShortens(s);
    } else {
      NoCrlfUnchanged(s);
    }
  }

  /** How many characters the first step of the replacement consumes: 2 at a CRLF, otherwise 1. */
  function CrlfStep(s: string): (k: nat)
    requires |s| >= 2
    ensures k == 1 || k == 2
  {
    if s[0] == '\r' && s[1] == '\n' then 2 else 1
  }

  /** One step of the replacement: the text the first step writes, then the rest. */
  lemma ReplaceCrlfHead(s: string)
    requires |s| >= 2
    ensures ReplaceCrlf(s) == (if CrlfStep(s) == 2 then "\n" else [s[0]]) + ReplaceCrlf(s[CrlfStep(s)..])
  {
  }

  /** The replacement works piecewise, unless a CR ends one piece and an LF starts the next. */
  lemma {:induction false} ReplaceCrlfAppend(a: string, b: string)
    requires !(|a| > 0 && |b| > 0 && a[|a| - 1] == '\r' && b[0] == '\n')
    ensures ReplaceCrlf(a + b) == ReplaceCrlf(a) + ReplaceCrlf(b)
    decreases |a|
  {
    var ab := a + b;
    if |a| == 0 {
      assert ab == b;
    } else if |b| == 0 {
      assert ab == a;
    } else if |a| == 1 {
      assert ab[0] == a[0] && ab[1] == b[0];
      assert ab[1..] == b;
      assert ReplaceCrlf(ab) == [a[0]] + ReplaceCrlf(b);
    } else {
      assert ab[0] == a[0] && ab[1] == a[1];
      var k := CrlfStep(a);
      assert CrlfStep(ab) == k;
      var rest := a[k..];
      assert ab[k..] == rest + b;
      assert |rest| > 0 ==> rest[|rest| - 1] == a[|a| - 1];
      ReplaceCrlfHead(a);
      ReplaceCrlfHead(ab);
      ReplaceCrlfAppend(rest, b);
    }
  }

  /** Every CRLF becomes one LF, wherever it stands. */
  lemma CrlfBecomesLf(a: string, b: string)
    ensures ReplaceCrlf(a + "\r\n" + b) == ReplaceCrlf(a) + "\n" + ReplaceCrlf(b)
  {
    assert a + "\r\n" + b == a + ("\r\n" + b);
    ReplaceCrlfAppend(a, "\r\n" + b);
    assert ("\r\n" + b)[2..] == b;
  }

  // ---------------------------------------------------------- /^data:\s?/gm

  const DataPrefix := "data:"

  /** `^` under the `m` flag holds at `i` of the ORIGINAL input. */
  predicate AtLineStart(s: string, i: int)
    requires 0 <= i <= |s|
  {
    i == 0 || IsLineTerminator(s[i - 1])
  }

  /** `s[i..]` begins with the literal `data:`. */
  predicate DataPrefixAt(s: string, i: int)
    requires 0 <= i && i + |DataPrefix| <= |s|
  {
    s[i] == 'd' && s[i + 1] == 'a' && s[i + 2] == 't' && s[i + 3] == 'a' && s[i + 4] == ':'
  }

  /** `/^data:\s?/m` matches at position `i` of `s`. */
  predicate MatchAt(s: string, i: int) {
    0 <= i && i + |DataPrefix| <= |s| && AtLineStart(s, i) && DataPrefixAt(s, i)
  }

  /** The length of that match: `\s?` is greedy, so one space is taken when present. */
  function MatchLength(s: string, i: int): (n: nat)
    requires MatchAt(s, i)
    ensures |DataPrefix| <= n <= |DataPrefix| + 1 && i + n <= |s|
  {
    if i + |DataPrefix| < |s| && IsRegExpSpace(s[i + |DataPrefix|]) then |DataPrefix| + 1 else |DataPrefix|
  }

  /** The scanner: the result of the global replacement of `s[i..]`, matching against all of `s`. */
  function StripFrom(s: string, i: nat): (r: string)
    requires i <= |s|
    ensures |r| <= |s| - i
    decreases |s| - i
  {
    if i == |s| then []
    else if MatchAt(s, i) then StripFrom(s, i + MatchLength(s, i))
    else [s[i]] + StripFrom(s, i + 1)
  }

  /** `s.replace(/^data:\s?/gm, "")`. */
  function StripDataPrefixes(s: string): (r: string)
    ensures |r| <= |s|
    ensures r == ReplaceAllFrom(s, 0)
  {
    StripFromIsReplaceAll(s, 0);
    StripFrom(s, 0)
  }

  // The replacement as ECMAScript states it: search for the first match at or
  // after `lastIndex`, keep the text before it, drop the match, and go on from
  // its end (a match is never empty, so `lastIndex` always advances).

  /** The search for a match at or after `from`; `FirstMatchIsLeftmost` says which it finds. */
  function FirstMatch(s: string, from: nat): (r: Option<nat>)
    requires from <= |s|
    ensures r.Some? ==> from <= r.value < |s| && MatchAt(s, r.value)
    decreases |s| - from
  {
    if from == |s| then None
    else if MatchAt(s, from) then Some(from)
    else FirstMatch(s, from + 1)
  }

  /** The search finds the leftmost match at or after `from`, and finds none only when there is none. */
  lemma {:induction false} FirstMatchIsLeftmost(s: string, from: nat)
    requires from <= |s|
    ensures FirstMatch(s, from).Some? ==> forall j :: from <= j < FirstMatch(s, from).value ==> !MatchAt(s, j)
    ensures FirstMatch(s, from).None? ==> forall j :: from <= j <= |s| ==> !MatchAt(s, j)
    decreases |s| - from
  {
    if from < |s| && !MatchAt(s, from) {
      FirstMatchIsLeftmost(s, from + 1);
    }
  }

  /** The global replacement from `lastIndex == from`, by repeated leftmost search. */
  function ReplaceAllFrom(s: string, from: nat): string
    requires from <= |s|
    decreases |s| - from
  {
    match FirstMatch(s, from)
    case None => s[from..]
    case Some(p) => s[from..p] + ReplaceAllFrom(s, p + MatchLength(s, p))
  }

  /** Skipping a position where no match starts keeps its character. */
  lemma ReplaceAllStep(s: string, i: nat)
    requires i < |s| && !MatchAt(s, i)
    ensures ReplaceAllFrom(s, i) == [s[i]] + ReplaceAllFrom(s, i + 1)
  {
    var m := FirstMatch(s, i);
    assert m == FirstMatch(s, i + 1);
    if m.None? {
      ReplaceAllStepNone(s, i);
    } else {
      ReplaceAllStepSome(s, i, m.value);
    }
  }

  lemma ReplaceAllStepNone(s: string, i: nat)
    requires i < |s| && FirstMatch(s, i) == None == FirstMatch(s, i + 1)
    ensures ReplaceAllFrom(s, i) == [s[i]] + ReplaceAllFrom(s, i + 1)
  {
    assert s[i..] == [s[i]] + s[i + 1..];
  }

  lemma ReplaceAllStepSome(s: string, i: nat, p: nat)
    requires i < |s| && FirstMatch(s, i) == Some(p) == FirstMatch(s, i + 1)
    ensures ReplaceAllFrom(s, i) == [s[i]] + ReplaceAllFrom(s, i + 1)
  {
    var rest := ReplaceAllFrom(s, p + MatchLength(s, p));
    assert ReplaceAllFrom(s, i) == s[i..p] + rest;
    assert ReplaceAllFrom(s, i + 1) == s[i + 1..p] + rest;
    SliceCons(s, i, p, rest);
  }

  lemma SliceCons(s: string, i: nat, p: nat, rest: string)
    requires i < p <= |s|
    ensures s[i..p] + rest == [s[i]] + (s[i + 1..p] + rest)
  {
    assert s[i..p] == [s[i]] + s[i + 1..p];
  }

  /** The scanner computes the ECMAScript global replacement. */
  lemma {:induction false} StripFromIsReplaceAll(s: string, i: nat)
    requires i <= |s|
    ensures StripFrom(s, i) == ReplaceAllFrom(s, i)
    decreases |s| - i
  {
    if i == |s| {
    } else if MatchAt(s, i) {
      StripFromIsReplaceAll(s, i + MatchLength(s, i));
    } else {
      ReplaceAllStep(s, i);
      StripFromIsReplaceAll(s, i + 1);
    }
  }

  /** Some line of `s` begins with `data:`. */
  predicate HasDataLine(s: string) {
    exists i :: 0 <= i < |s| && MatchAt(s, i)
  }

  lemma {:induction false} NoMatchKeeps(s: string, i: nat)
    requires i <= |s|
    requires forall j :: i <= j < |s| ==> !MatchAt(s, j)
    ensures StripFrom(s, i) == s[i..]
    decreases |s| - i
  {
    if i < |s| {
      NoMatchKeeps(s, i + 1);
      assert s[i..] == [s[i]] + s[i + 1..];
    }
  }

  lemma {:induction false} MatchShortens(s: string, i: nat, j: nat)
    requires i <= j && MatchAt(s, j)
    ensures |StripFrom(s, i)| < |s| - i
    decreases |s| - i
  {
    if i < j && !MatchAt(s, i) {
      MatchShortens(s, i + 1, j);
    } else if MatchAt(s, i) {
      var _ := StripFrom(s, i + MatchLength(s, i));
    }
  }

  /** The prefix removal changes its input exactly when some line begins with `data:`. */
  lemma StripFixedPoint(s: string)
    ensures StripDataPrefixes(s) == s <==> !HasDataLine(s)
  {
    if HasDataLine(s) {
      var j :| 0 <= j < |s| && MatchAt(s, j);
      MatchShortens(s, 0, j);
    } else {
      NoMatchKeeps(s, 0);
    }
  }

  /**
   * The replacement is one left-to-right pass over the original: a `data:`
   * uncovered by a removal was not at a line start, so it stays, and a second
   * pass removes it. The operation is not idempotent.
   */
  lemma StripNotIdempotent()
    ensures StripDataPrefixes("data:data:x") == "data:x"
    ensures StripDataPrefixes("data:x") == "x"
  {
    var s := "data:data:x";
    assert MatchAt(s, 0) && MatchLength(s, 0) == 5;
    assert !AtLineStart(s, 5) && !MatchAt(s, 5);
    assert !MatchAt(s, 6) && !MatchAt(s, 7) && !MatchAt(s, 8) && !MatchAt(s, 9) && !MatchAt(s, 10);
    assert StripFrom(s, 5) == "data:x";
    var t := "data:x";
    assert MatchAt(t, 0) && MatchLength(t, 0) == 5;
  }

  /** `\s` takes a line feed, so a `data:` line's break goes with it. */
  lemma StripTakesNewline()
    ensures StripDataPrefixes("data:\nX") == "X"
    ensures StripDataPrefixes("a\ndata: b") == "a\nb"
  {
  }

  // ------------------------------------------------------------ onmessage

  /** `String(chunk)` throws for the value `JSON.parse(data)` gives. */
  predicate ConversionThrows(parse: string -> Option<JsValue>, data: string) {
    parse(data).Some? && ToJsString(parse(data).value).None?
  }

  /**
   * The text before newline handling: `JSON.parse(data)` when it succeeds
   * (`parse` returns `None` where it throws), else the raw data; a decoded
   * non-string goes through `String`. `None` where `String` throws.
   */
  function Decoded(parse: string -> Option<JsValue>, data: string): (r: Option<string>)
    ensures r.None? <==> ConversionThrows(parse, data)
    ensures parse(data) == None ==> r == Some(data)
    ensures parse(data).Some? ==> r == ToJsString(parse(data).value)
  {
    match parse(data)
    case None => Some(data)
    case Some(v) => if v.Str? then Some(v.s) else ToJsString(v)
  }

  /**
   * The text an event yields: `None` where `onChunk` is not called, either
   * because the data is empty or because `String` throws before the call.
   */
  function ChunkText(parse: string -> Option<JsValue>, data: string): (r: Option<string>)
    ensures r.None? <==> data == "" || ConversionThrows(parse, data)
  {
    if data == "" then None
    else
      match Decoded(parse, data)
      case None => None
      case Some(t) => Some(StripDataPrefixes(ReplaceCrlf(t)))
  }

  /** Text that is not JSON, has no CRLF and no line starting `data:` arrives unchanged. */
  lemma PassThrough(parse: string -> Option<JsValue>, data: string)
    requires data != "" && parse(data) == None
    requires !HasCrlf(data) && !HasDataLine(data)
    ensures ChunkText(parse, data) == Some(data)
  {
    NoCrlfUnchanged(data);
    StripFixedPoint(data);
  }

  /** The texts handed to `onChunk` for a sequence of events, in order. */
  function Deliver(parse: string -> Option<JsValue>, events: seq<string>): (r: seq<string>)
    ensures |r| <= |events|
    ensures (forall i :: 0 <= i < |events| ==> events[i] == "") ==> r == []
  {
    if events == [] then []
    else
      match ChunkText(parse, events[0])
      case None => Deliver(parse, events[1..])
      case Some(t) => [t] + Deliver(parse, events[1..])
  }

  /** The number of events with non-empty data whose decoded value `String` converts. */
  function CountConverted(parse: string -> Option<JsValue>, events: seq<string>): nat {
    if events == [] then 0
    else (if events[0] == "" || ConversionThrows(parse, events[0]) then 0 else 1) + CountConverted(parse, events[1..])
  }

  /** Events are handled one after another: later events only add output after earlier output. */
  lemma {:induction false} DeliverAppend(parse: string -> Option<JsValue>, a: seq<string>, b: seq<string>)
    ensures Deliver(parse, a + b) == Deliver(parse, a) + Deliver(parse, b)
    decreases |a|
  {
    if a == [] {
      assert a + b == b;
    } else {
      assert (a + b)[1..] == a[1..] + b;
      DeliverAppend(parse, a[1..], b);
    }
  }

  /** Exactly one text per event with non-empty data that converts. */
  lemma {:induction false} DeliverCount(parse: string -> Option<JsValue>, events: seq<string>)
    ensures |Deliver(parse, events)| == CountConverted(parse, events)
    decreases |events|
  {
    if events != [] {
      DeliverCount(parse, events[1..]);
    }
  }
}
