/**
 * What the browser client sees of the server, shared by the three client
 * components (frontend/pages/index.js, frontend/components/Demo/UploadBox.js
 * and ChatBox.js): each `fetch` either fails or yields a response with an
 * `ok` status and a JSON body whose fields may be missing; errors thrown in
 * a handler are described with JavaScript's `||` fallbacks; report links
 * are built with `encodeURIComponent`.
 */
module Replies {
  import opened Optional

  /** A risk flag as the client receives it. */
  datatype FlagItem = FlagItem(clauseId: string, tag: string)

  /** A retrieved clause as the client receives it; `text` may be missing. */
  datatype EvidenceItem = EvidenceItem(clauseId: string, text: Option<string>)

  /**
   * The fields of a JSON reply body the handlers read (`None` for a missing
   * or null field), and `json`, what `JSON.stringify` gives for the body.
   */
  datatype Body = Body(
    filename: Option<string>,
    docId: Option<string>,
    message: Option<string>,
    error: Option<string>,
    flags: Option<seq<FlagItem>>,
    numClauses: Option<int>,
    answer: Option<string>,
    evidence: Option<seq<EvidenceItem>>,
    json: string)

  /**
   * The outcome of `fetch(...)` followed by `res.json()`: either one of the
   * two rejected (network failure, a body that is not JSON) with an error
   * message, or a response arrived.
   */
  datatype Reply = NoResponse(message: string) | Response(ok: bool, body: Body)

  /** A request the client sends, by endpoint, with its JSON fields. */
  datatype Request =
    | UploadFile(file: string)
    | AnalyzeFile(filename: string)
    | InitSample
    | AskQuestion(docId: string, query: string, topK: int)

  /** `top_k` of both question forms. */
  const QuestionTopK: int := 4

  /**
   * What a handler's `catch` receives: a reply body thrown by `throw data`,
   * or a JavaScript `Error` (from `fetch`, `res.json()` or `new Error(...)`).
   */
  datatype Thrown = ThrownBody(body: Body) | ThrownError(message: string)

  /** The thrown value of a failed reply, if it failed. */
  function Failure(reply: Reply): Option<Thrown> {
    match reply
    case NoResponse(m) => Some(ThrownError(m))
    case Response(ok, body) => if ok then None else Some(ThrownBody(body))
  }

  /** `err.error`: an `Error` object has no such property. */
  function ErrorOf(t: Thrown): Option<string> {
    match t
    case ThrownBody(b) => b.error
    case ThrownError(_) => None
  }

  /** `err.message`. */
  function MessageOf(t: Thrown): Option<string> {
    match t
    case ThrownBody(b) => b.message
    case ThrownError(m) => Some(m)
  }

  /** `JSON.stringify(err)`: an `Error`'s own properties are not enumerable, so it gives "{}". */
  function JsonOf(t: Thrown): string {
    match t
    case ThrownBody(b) => b.json
    case ThrownError(_) => "{}"
  }

  /** `err.error || err.message || JSON.stringify(err)`. */
  function Explain(t: Thrown): string {
    var e := OrElse(ErrorOf(t), MessageOf(t));
    if Given(e) then e.value else JsonOf(t)
  }

  /** `err.error || JSON.stringify(err)`. */
  function Brief(t: Thrown): string {
    if Given(ErrorOf(t)) then ErrorOf(t).value else JsonOf(t)
  }

  /**
   * The two descriptions agree on a body with an `error` text; a body
   * without one is described by its `message` only by Explain; and Brief
   * says "{}" of every `Error`, whatever its message.
   */
  lemma DescriptionsCompared(t: Thrown)
    ensures Given(ErrorOf(t)) ==> Explain(t) == Brief(t) == ErrorOf(t).value
    ensures !Given(ErrorOf(t)) && Given(MessageOf(t)) ==> Explain(t) == MessageOf(t).value
    ensures !Given(ErrorOf(t)) ==> Brief(t) == JsonOf(t)
    ensures !Given(ErrorOf(t)) && !Given(MessageOf(t)) ==> Explain(t) == Brief(t) == JsonOf(t)
    ensures t.ThrownError? ==> Brief(t) == "{}"
    ensures t.ThrownError? && t.message != "" ==> Explain(t) == t.message
  {
  }

  /** JavaScript's text for an optional string in a template or `+`: undefined gives "undefined". */
  function JsText(s: Option<string>): string {
    s.GetOr("undefined")
  }

  // ----- encodeURIComponent -----

  /** The characters `encodeURIComponent` leaves as they are. */
  predicate Unreserved(c: char) {
    || ('A' <= c <= 'Z')
    || ('a' <= c <= 'z')
    || ('0' <= c <= '9')
    || c == '-' || c == '_' || c == '.' || c == '!' || c == '~' || c == '*' || c == '\'' || c == '(' || c == ')'
  }

  /** The UTF-8 encoding of a character, as byte values. */
  function Utf8(c: char): (bytes: seq<nat>)
    ensures 1 <= |bytes| <= 4
    ensures forall k :: 0 <= k < |bytes| ==> bytes[k] < 256
    ensures c as int < 0x80 <==> |bytes| == 1
    ensures c as int < 0x80 ==> bytes[0] == c as int
  {
    var n := c as int;
    if n < 0x80 then [n]
    else if n < 0x800 then [0xC0 + n / 0x40, 0x80 + n % 0x40]
    else if n < 0x1_0000 then [0xE0 + n / 0x1000, 0x80 + n / 0x40 % 0x40, 0x80 + n % 0x40]
    else [0xF0 + n / 0x4_0000, 0x80 + n / 0x1000 % 0x40, 0x80 + n / 0x40 % 0x40, 0x80 + n % 0x40]
  }

  predicate IsHexDigit(c: char) {
    ('0' <= c <= '9') || ('A' <= c <= 'F')
  }

  /** The upper-case hexadecimal digit of a value below 16. */
  function HexDigit(d: nat): (c: char)
    requires d < 16
    ensures IsHexDigit(c)
  {
    if d < 10 then ('0' as int + d) as char else ('A' as int + d - 10) as char
  }

  /** The value of a hexadecimal digit: HexDigit's inverse. */
  function HexValue(c: char): (v: nat)
    requires IsHexDigit(c)
    ensures v < 16 && HexDigit(v) == c
  {
    if c <= '9' then c as int - '0' as int else c as int - 'A' as int + 10
  }

  /** "%XY" for a byte, with upper-case hexadecimal digits. */
  function PercentByte(b: nat): (r: string)
    requires b < 256
    ensures |r| == 3 && r[0] == '%' && IsHexDigit(r[1]) && IsHexDigit(r[2])
    ensures 16 * HexValue(r[1]) + HexValue(r[2]) == b
  {
    var hi, lo := b / 16, b % 16;
    assert HexValue(HexDigit(hi)) == hi && HexValue(HexDigit(lo)) == lo;
    ['%', HexDigit(hi), HexDigit(lo)]
  }

  /** The escapes of a sequence of bytes. */
  function PercentBytes(bytes: seq<nat>): string
    requires forall k :: 0 <= k < |bytes| ==> bytes[k] < 256
  {
    if bytes == [] then [] else PercentByte(bytes[0]) + PercentBytes(bytes[1..])
  }

  /** One character of `encodeURIComponent`'s output. */
  function EncodeChar(c: char): string {
    if Unreserved(c) then [c] else PercentBytes(Utf8(c))
  }

  /** `encodeURIComponent(s)`. */
  function EncodeComponent(s: string): string {
    if s == [] then [] else EncodeChar(s[0]) + EncodeComponent(s[1..])
  }

  /** The characters `encodeURIComponent` can output: unreserved ones and '%'. */
  predicate EncodedText(e: string) {
    forall k :: 0 <= k < |e| ==> Unreserved(e[k]) || e[k] == '%' || IsHexDigit(e[k])
  }

  lemma {:induction false} PercentBytesText(bytes: seq<nat>)
    requires forall k :: 0 <= k < |bytes| ==> bytes[k] < 256
    ensures EncodedText(PercentBytes(bytes))
  {
    if bytes != [] {
      PercentBytesText(bytes[1..]);
      var p, rest := PercentByte(bytes[0]), PercentBytes(bytes[1..]);
      assert forall k :: 0 <= k < |rest| ==> (p + rest)[3 + k] == rest[k];
    }
  }

  /**
   * The output of `encodeURIComponent` holds only unreserved characters
   * and escapes, so no '/', '?', '#' or '&'.
   */
  lemma {:induction false} EncodeComponentText(s: string)
    ensures EncodedText(EncodeComponent(s))
  {
    if s != [] {
      EncodeComponentText(s[1..]);
      var e, rest := EncodeChar(s[0]), EncodeComponent(s[1..]);
      if !Unreserved(s[0]) {
        PercentBytesText(Utf8(s[0]));
      }
      assert forall k :: 0 <= k < |rest| ==> (e + rest)[|e| + k] == rest[k];
    }
  }

  /** A string of unreserved characters is its own encoding. */
  lemma {:induction false} EncodeUnreserved(s: string)
    requires forall k :: 0 <= k < |s| ==> Unreserved(s[k])
    ensures EncodeComponent(s) == s
  {
    if s != [] {
      EncodeUnreserved(s[1..]);
    }
  }

  /**
   * Decoding of percent-escapes, to bytes: an escape gives its byte, any
   * other character its own code (which is its UTF-8 encoding when it is
   * ASCII). A '%' not followed by two hexadecimal digits is an error.
   */
  function PercentDecode(e: string): Option<seq<nat>>
    decreases |e|
  {
    if e == [] then Some([])
    else if e[0] == '%' then
      if |e| >= 3 && IsHexDigit(e[1]) && IsHexDigit(e[2]) then
        Prefixed([16 * HexValue(e[1]) + HexValue(e[2])], PercentDecode(e[3..]))
      else None
    else Prefixed([e[0] as int], PercentDecode(e[1..]))
  }

  /** Bytes put in front of a decoding; a failed decoding stays failed. */
  function Prefixed(bytes: seq<nat>, decoded: Option<seq<nat>>): (r: Option<seq<nat>>)
    ensures r.Some? <==> decoded.Some?
    ensures r.Some? ==> |r.value| == |bytes| + |decoded.value| && r.value[..|bytes|] == bytes
  {
    match decoded
    case None => None
    case Some(rest) => Some(bytes + rest)
  }

  lemma PrefixedTwice(x: seq<nat>, y: seq<nat>, decoded: Option<seq<nat>>)
    ensures Prefixed(x, Prefixed(y, decoded)) == Prefixed(x + y, decoded)
  {
    if decoded.Some? {
      assert x + (y + decoded.value) == (x + y) + decoded.value;
    }
  }

  /** The UTF-8 encoding of a whole string. */
  function Utf8String(s: string): seq<nat> {
    if s == [] then [] else Utf8(s[0]) + Utf8String(s[1..])
  }

  /** Decoding runs left to right: a decodable prefix decodes on its own. */
  lemma {:induction false} PercentDecodeAppend(a: string, b: string)
    requires PercentDecode(a).Some?
    ensures PercentDecode(a + b) == Prefixed(PercentDecode(a).value, PercentDecode(b))
    decreases |a|
  {
    if a == [] {
      assert a + b == b;
      PrefixedTwice([], [], PercentDecode(b));
    } else {
      var n := if a[0] == '%' then 3 else 1;
      var x: nat := if a[0] == '%' then 16 * HexValue(a[1]) + HexValue(a[2]) else a[0] as int;
      DecodeFirst(a, b, n, x);
      PercentDecodeAppend(a[n..], b);
      PrefixedTwice([x], PercentDecode(a[n..]).value, PercentDecode(b));
    }
  }

  /** Both `a` and `a + b` decode their first character or escape of `a` alike. */
  lemma DecodeFirst(a: string, b: string, n: nat, x: nat)
    requires PercentDecode(a).Some? && a != []
    requires n == (if a[0] == '%' then 3 else 1)
    requires a[0] == '%' ==> |a| >= 3 && IsHexDigit(a[1]) && IsHexDigit(a[2])
    requires x == if a[0] == '%' then 16 * HexValue(a[1]) + HexValue(a[2]) else a[0] as int
    ensures PercentDecode(a) == Prefixed([x], PercentDecode(a[n..]))
    ensures PercentDecode(a + b) == Prefixed([x], PercentDecode(a[n..] + b))
  {
    var ab := a + b;
    assert ab[..n] == a[..n];
    assert ab[n..] == a[n..] + b;
  }

  /** An escape decodes to its byte. */
  lemma PercentByteDecodes(b: nat)
    requires b < 256
    ensures PercentDecode(PercentByte(b)) == Some([b])
  {
    var p := PercentByte(b);
    assert PercentDecode(p[3..]) == Some([]);
    var v := 16 * HexValue(p[1]) + HexValue(p[2]);
    assert PercentDecode(p) == Some([v] + []);
    assert [v] + [] == [b];
  }

  lemma {:induction false} PercentBytesDecode(bytes: seq<nat>)
    requires forall k :: 0 <= k < |bytes| ==> bytes[k] < 256
    ensures PercentDecode(PercentBytes(bytes)) == Some(bytes)
  {
    if bytes != [] {
      PercentBytesDecode(bytes[1..]);
      PercentByteDecodes(bytes[0]);
      PercentDecodeAppend(PercentByte(bytes[0]), PercentBytes(bytes[1..]));
      assert [bytes[0]] + bytes[1..] == bytes;
    }
  }

  /**
   * Decoding the escapes of `encodeURIComponent(s)` gives back the UTF-8
   * bytes of `s`: no information is lost.
   */
  lemma {:induction false} EncodeComponentDecodes(s: string)
    ensures PercentDecode(EncodeComponent(s)) == Some(Utf8String(s))
  {
    if s != [] {
      var c := s[0];
      EncodeComponentDecodes(s[1..]);
      var e := EncodeChar(c);
      if Unreserved(c) {
        assert PercentDecode(e[1..]) == Some([]);
        assert PercentDecode(e) == Some([c as int] + []);
        assert [c as int] + [] == Utf8(c);
      } else {
        PercentBytesDecode(Utf8(c));
      }
      PercentDecodeAppend(e, EncodeComponent(s[1..]));
    }
  }

  /** `${API_BASE}/report/${encodeURIComponent(name)}`. */
  function ReportUrl(apiBase: string, name: string): string {
    apiBase + "/report/" + EncodeComponent(name)
  }

  /**
   * A report link is the API base, "/report/", and one path segment (no
   * '/', '?' or '#') that decodes to the name's UTF-8 bytes.
   */
  lemma ReportUrlSegment(apiBase: string, name: string)
    ensures var url := ReportUrl(apiBase, name);
            var segment := url[|apiBase| + 8..];
            && url[..|apiBase| + 8] == apiBase + "/report/"
            && (forall k :: 0 <= k < |segment| ==> segment[k] != '/' && segment[k] != '?' && segment[k] != '#')
            && PercentDecode(segment) == Some(Utf8String(name))
  {
    ReportUrlParts(apiBase, name);
    EncodeComponentText(name);
    EncodedTextNoDelimiters(EncodeComponent(name));
    EncodeComponentDecodes(name);
  }

  lemma ReportUrlParts(apiBase: string, name: string)
    ensures var url := ReportUrl(apiBase, name);
            && url[..|apiBase| + 8] == apiBase + "/report/"
            && url[|apiBase| + 8..] == EncodeComponent(name)
  {
    var prefix := apiBase + "/report/";
    assert ReportUrl(apiBase, name) == prefix + EncodeComponent(name);
  }

  /** Encoded text holds no path, query or fragment delimiter. */
  lemma EncodedTextNoDelimiters(e: string)
    requires EncodedText(e)
    ensures forall k :: 0 <= k < |e| ==> e[k] != '/' && e[k] != '?' && e[k] != '#'
  {
    forall k | 0 <= k < |e|
      ensures e[k] != '/' && e[k] != '?' && e[k] != '#'
    {
      var c := e[k];
      assert Unreserved(c) || c == '%' || IsHexDigit(c);
    }
  }

  /** `process.env.NEXT_PUBLIC_API_BASE || "http://127.0.0.1:5000"`. */
  function ApiBase(env: Option<string>): string {
    if Given(env) then env.value else "http://127.0.0.1:5000"
  }
}
