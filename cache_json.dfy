/**
 * The JSON text of a recovery-cache record, `{"content":…,"lastChunkId":…}`,
 * as `JSON.stringify` writes it for `{content, lastChunkId}`, and the reading
 * back of that text. `Parse` returns `None` for any text it does not
 * recognise; the cache treats that as a corrupt entry.
 */
module CacheJson {
  import opened Wrappers

  /** One cache record: the accumulated text and the last chunk id, or null. */
  datatype CacheData = CacheData(content: string, lastChunkId: Option<string>)

  const ContentMember := "{\"content\":"
  const IdMember := ",\"lastChunkId\":"

  predicate IsControl(c: char) {
    (c as int) < 0x20
  }

  function HexDigit(d: nat): (c: char)
    requires d < 16
    ensures '0' <= c <= '9' || 'a' <= c <= 'f'
  {
    if d < 10 then ('0' as int + d) as char else ('a' as int + d - 10) as char
  }

  /** The value of a hexadecimal digit, either case; `None` for any other character. */
  function HexValue(c: char): (r: Option<nat>)
    ensures r.Some? ==> r.value < 16
  {
    if '0' <= c <= '9' then Some((c as int) - ('0' as int))
    else if 'a' <= c <= 'f' then Some((c as int) - ('a' as int) + 10)
    else if 'A' <= c <= 'F' then Some((c as int) - ('A' as int) + 10)
    else None
  }

  lemma HexDigitValue(d: nat)
    requires d < 16
    ensures HexValue(HexDigit(d)) == Some(d)
  {
  }

  /** How `JSON.stringify` writes one character inside a string literal. */
  function EscapeChar(c: char): (r: string)
    ensures |r| >= 1
    ensures forall i :: 0 <= i < |r| ==> !IsControl(r[i])
  {
    if c == '"' then "\\\""
    else if c == '\\' then "\\\\"
    else if c == '\U{8}' then "\\b"
    else if c == '\U{C}' then "\\f"
    else if c == '\n' then "\\n"
    else if c == '\r' then "\\r"
    else if c == '\t' then "\\t"
    else if IsControl(c) then "\\u00" + [HexDigit((c as int) / 16), HexDigit((c as int) % 16)]
    else [c]
  }

  function Escape(s: string): (r: string)
    ensures |r| >= |s|
    ensures forall i :: 0 <= i < |r| ==> !IsControl(r[i])
  {
    if s == [] then [] else EscapeChar(s[0]) + Escape(s[1..])
  }

  /** A JSON string literal. */
  function Quote(s: string): string {
    "\"" + (Escape(s) + "\"")
  }

  function IdJson(id: Option<string>): string {
    match id
    case None => "null"
    case Some(v) => Quote(v)
  }

  /** The text after the content literal: the `lastChunkId` member and the closing brace. */
  function IdTail(id: Option<string>): string {
    IdMember + (IdJson(id) + "}")
  }

  /** `{"content":` and the opening quote of the content literal. */
  const OpenContent := ContentMember + "\""

  /** `JSON.stringify({content, lastChunkId})`. */
  function Serialize(d: CacheData): (r: string)
    ensures OpenContent <= r
  {
    OpenContent + (Escape(d.content) + "\"" + IdTail(d.lastChunkId))
  }

  /** The rest of `t` after `p`, when `t` begins with `p`. */
  function DropPrefix(p: string, t: string): (r: Option<string>)
    ensures r.Some? ==> t == p + r.value
  {
    if p <= t then Some(t[|p|..]) else None
  }

  lemma DropPrefixOf(p: string, x: string)
    ensures DropPrefix(p, p + x) == Some(x)
  {
  }

  /** Four hexadecimal digits as a code unit; `None` unless all four are digits. */
  function HexQuad(u: string): (r: Option<nat>)
    requires |u| >= 4
    ensures r.Some? ==> r.value < 0x10000
  {
    match (HexValue(u[0]), HexValue(u[1]), HexValue(u[2]), HexValue(u[3]))
    case (Some(a), Some(b), Some(c), Some(d)) => Some(((a * 16 + b) * 16 + c) * 16 + d)
    case _ => None
  }

  /**
   * The character an escape sequence stands for and how many characters
   * after the backslash it takes. A `\u` escape naming half of a surrogate
   * pair is not read.
   */
  function ParseEscape(u: string): (r: Option<(char, nat)>)
    ensures r.Some? ==> 1 <= r.value.1 <= |u|
  {
    if |u| == 0 then None
    else if u[0] == '"' then Some(('"', 1))
    else if u[0] == '\\' then Some(('\\', 1))
    else if u[0] == '/' then Some(('/', 1))
    else if u[0] == 'b' then Some(('\U{8}', 1))
    else if u[0] == 'f' then Some(('\U{C}', 1))
    else if u[0] == 'n' then Some(('\n', 1))
    else if u[0] == 'r' then Some(('\r', 1))
    else if u[0] == 't' then Some(('\t', 1))
    else if u[0] == 'u' && |u| >= 5 then
      match HexQuad(u[1..5])
      case Some(n) => if n < 0xD800 || 0xE000 <= n then Some((n as char, 5)) else None
      case None => None
    else None
  }

  /**
   * Reads the body of a string literal whose opening quote is already
   * consumed: the string it denotes and the text after the closing quote.
   */
  function ParseStringBody(t: string): (r: Option<(string, string)>)
    ensures r.Some? ==> |r.value.1| < |t| && t[|t| - |r.value.1|..] == r.value.1
    decreases |t|
  {
    if |t| == 0 then None
    else if t[0] == '"' then Some(([], t[1..]))
    else if t[0] == '\\' then
      match ParseEscape(t[1..])
      case None => None
      case Some((c, n)) =>
        match ParseStringBody(t[1 + n..])
        case None => None
        case Some((v, rest)) => Some(([c] + v, rest))
    else if IsControl(t[0]) then None
    else
      match ParseStringBody(t[1..])
      case None => None
      case Some((v, rest)) => Some(([t[0]] + v, rest))
  }

  /** Reads `,"lastChunkId":` then `null` or a string literal, then `}` and nothing more. */
  function ParseIdMember(rest: string): (r: Option<Option<string>>)
    ensures r.Some? ==> IdMember <= rest && rest[|rest| - 1] == '}'
  {
    match DropPrefix(IdMember, rest)
    case None => None
    case Some(tail) =>
      if tail == "null}" then Some(None)
      else
        match DropPrefix("\"", tail)
        case None => None
        case Some(literal) =>
          match ParseStringBody(literal)
          case None => None
          case Some((id, after)) => if after == "}" then Some(Some(id)) else None
  }

  /** Reads the text `Serialize` writes; anything else is `None`. */
  function Parse(t: string): (r: Option<CacheData>)
    ensures r.Some? ==> OpenContent <= t && t[|t| - 1] == '}'
  {
    match DropPrefix(OpenContent, t)
    case None => None
    case Some(body) =>
      match ParseStringBody(body)
      case None => None
      case Some((content, rest)) =>
        match ParseIdMember(rest)
        case None => None
        case Some(id) => Some(CacheData(content, id))
  }

  /** The literal's reading after one character `c` has been read. */
  function ReadOn(c: char, tail: string): Option<(string, string)> {
    match ParseStringBody(tail)
    case None => None
    case Some((v, rest)) => Some(([c] + v, rest))
  }

  predicate HasShortEscape(c: char) {
    c == '"' || c == '\\' || c == '\U{8}' || c == '\U{C}' || c == '\n' || c == '\r' || c == '\t'
  }

  lemma ParseShortEscape(c: char, tail: string)
    requires HasShortEscape(c)
    ensures ParseStringBody(EscapeChar(c) + tail) == ReadOn(c, tail)
  {
    var t := EscapeChar(c) + tail;
    assert |EscapeChar(c)| == 2 && t[0] == '\\' && t[1 + 1..] == tail;
    assert ParseEscape(t[1..]) == Some((c, 1));
    ParseAfterEscape(t, c, 1);
  }

  /** A literal body that starts with an escape sequence reads on after it. */
  lemma ParseAfterEscape(t: string, c: char, n: nat)
    requires |t| > 0 && t[0] == '\\' && ParseEscape(t[1..]) == Some((c, n))
    ensures ParseStringBody(t) == ReadOn(c, t[1 + n..])
  {
  }

  lemma ParseUnicodeEscape(c: char, tail: string)
    requires !HasShortEscape(c) && IsControl(c)
    ensures ParseStringBody(EscapeChar(c) + tail) == ReadOn(c, tail)
  {
    var t := EscapeChar(c) + tail;
    var hi, lo := (c as int) / 16, (c as int) % 16;
    HexDigitValue(hi);
    HexDigitValue(lo);
    HexDigitValue(0);
    var e := EscapeChar(c);
    assert e == "\\u00" + [HexDigit(hi), HexDigit(lo)];
    assert |e| == 6 && t[..6] == e;
    assert t[1] == 'u' && t[2] == '0' && t[3] == '0' && t[4] == HexDigit(hi) && t[5] == HexDigit(lo);
    var u := t[1..];
    assert u[0] == 'u' && |u| >= 5;
    assert u[1..5] == ['0', '0', HexDigit(hi), HexDigit(lo)];
    assert HexQuad(u[1..5]) == Some(c as int);
    assert ParseEscape(u) == Some((c, 5));
    assert t[1 + 5..] == tail;
    ParseAfterEscape(t, c, 5);
  }

  /** Reading one escaped character, then the rest of the literal. */
  lemma ParseEscapedChar(c: char, tail: string)
    ensures ParseStringBody(EscapeChar(c) + tail) == ReadOn(c, tail)
  {
    if HasShortEscape(c) {
      ParseShortEscape(c, tail);
    } else if IsControl(c) {
      ParseUnicodeEscape(c, tail);
    } else {
      assert (EscapeChar(c) + tail)[1..] == tail;
    }
  }

  /** The body of a quoted `Escape(s)` reads back as `s`, leaving what follows. */
  lemma {:induction false} ParseEscaped(s: string, rest: string)
    ensures ParseStringBody(Escape(s) + "\"" + rest) == Some((s, rest))
  {
    if s == [] {
      assert Escape(s) + "\"" + rest == "\"" + rest;
    } else {
      assert Escape(s) + "\"" + rest == EscapeChar(s[0]) + (Escape(s[1..]) + "\"" + rest);
      ParseEscapedChar(s[0], Escape(s[1..]) + "\"" + rest);
      ParseEscaped(s[1..], rest);
      assert [s[0]] + s[1..] == s;
    }
  }

  lemma ParseIdTail(id: Option<string>)
    ensures ParseIdMember(IdTail(id)) == Some(id)
  {
    DropPrefixOf(IdMember, IdJson(id) + "}");
    match id
    case None =>
      assert IdJson(id) + "}" == "null}";
    case Some(v) =>
      assert IdJson(id) + "}" == "\"" + (Escape(v) + "\"" + "}");
      assert (IdJson(id) + "}")[0] != "null}"[0];
      DropPrefixOf("\"", Escape(v) + "\"" + "}");
      ParseEscaped(v, "}");
  }

  /** Every record reads back from its own JSON text. */
  lemma RoundTrip(d: CacheData)
    ensures Parse(Serialize(d)) == Some(d)
  {
    DropPrefixOf(OpenContent, Escape(d.content) + "\"" + IdTail(d.lastChunkId));
    ParseEscaped(d.content, IdTail(d.lastChunkId));
    ParseIdTail(d.lastChunkId);
  }

  /** Distinct records have distinct JSON texts. */
  lemma SerializeInjective(d: CacheData, e: CacheData)
    requires Serialize(d) == Serialize(e)
    ensures d == e
  {
    RoundTrip(d);
    RoundTrip(e);
  }
}
