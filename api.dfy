/** The pure side of the HTTP client: the audio MIME type chosen for an
    upload, the messages thrown for failed responses, the query string and
    the request body. The network calls themselves are not modelled; a
    response is a parameter. */
module Api {
  import opened Common

  // ---------------------------------------------------------------------
  // JavaScript values, as far as the error handling inspects them

  /** A value `response.json()` can produce. Numbers are integers. */
  datatype JsValue =
    | Undefined
    | Null
    | Bool(b: bool)
    | Num(n: int)
    | Str(s: string)
    | Arr(items: seq<JsValue>)
    | Obj(fields: map<string, JsValue>)

  /** What `||` and `if (...)` treat as true. */
  predicate Truthy(v: JsValue) {
    match v
    case Undefined => false
    case Null => false
    case Bool(b) => b
    case Num(n) => n != 0
    case Str(s) => s != ""
    case Arr(_) => true
    case Obj(_) => true
  }

  /** What `??` treats as missing. */
  predicate Nullish(v: JsValue) {
    v.Undefined? || v.Null?
  }

  /** `typeof v === "object"`. */
  predicate IsObjectType(v: JsValue) {
    v.Null? || v.Arr? || v.Obj?
  }

  /** `v?.key` (and `v.key` on a value that is not nullish): an object's own
      field, undefined for everything else. */
  function Get(v: JsValue, key: string): JsValue {
    match v
    case Obj(fields) => if key in fields then fields[key] else Undefined
    case _ => Undefined
  }

  function DigitChar(d: int): char
    requires 0 <= d < 10
  {
    ('0' as int + d) as char
  }

  /** The decimal digits of `n`, without leading zeros. */
  function NatText(n: nat): (r: string)
    ensures 1 <= |r|
    ensures forall i | 0 <= i < |r| :: '0' <= r[i] <= '9'
    ensures 1 < |r| ==> r[0] != '0'
    decreases n
  {
    if n < 10 then [DigitChar(n)] else NatText(n / 10) + [DigitChar(n % 10)]
  }

  /** The number a string of decimal digits denotes. */
  function DigitsValue(s: string): int
    decreases |s|
  {
    if s == [] then 0 else DigitsValue(s[..|s| - 1]) * 10 + (s[|s| - 1] as int - '0' as int)
  }

  /** Reading the digits back gives the number. */
  lemma {:induction false} NatTextRoundTrip(n: nat)
    ensures DigitsValue(NatText(n)) == n
    decreases n
  {
    if n >= 10 {
      NatTextRoundTrip(n / 10);
      var r := NatText(n);
      assert r[..|r| - 1] == NatText(n / 10);
    }
  }

  /** An integer as `String(n)` writes it. */
  function IntText(n: int): string {
    if n < 0 then "-" + NatText(-n) else NatText(n)
  }

  /** `String(v)`, as a template literal or `new Error(v)` renders it:
      arrays join their items with ",", writing null and undefined items as
      nothing. */
  function Text(v: JsValue): string
    decreases v, 1
  {
    match v
    case Undefined => "undefined"
    case Null => "null"
    case Bool(b) => if b then "true" else "false"
    case Num(n) => IntText(n)
    case Str(s) => s
    case Arr(items) => ItemsText(v, 0)
    case Obj(_) => "[object Object]"
  }

  /** The joined text of the items of array `v` from position `i` on. */
  function ItemsText(v: JsValue, i: nat): string
    requires v.Arr? && i <= |v.items|
    decreases v, 0, |v.items| - i
  {
    if i == |v.items| then ""
    else
      var item := v.items[i];
      assert item in v.items;
      (if i > 0 then "," else "") + (if Nullish(item) then "" else Text(item)) + ItemsText(v, i + 1)
  }

  // ---------------------------------------------------------------------
  // Error messages of failed responses

  /** `value || fallback`, rendered. */
  function OrElse(v: JsValue, fallback: string): string {
    if Truthy(v) then Text(v) else fallback
  }

  /** `value ?? fallback`, rendered. */
  function IfMissing(v: JsValue, fallback: string): string {
    if Nullish(v) then fallback else Text(v)
  }

  /** The layout of a structured error message. */
  function Format(code: string, kind: string, message: string, param: string): string {
    "[" + code + "] " + kind + " - " + message + " (param: " + param + ")"
  }

  function CodeText(apiError: JsValue): string {
    OrElse(Get(apiError, "code"), "unknown_error")
  }

  function KindText(apiError: JsValue): string {
    OrElse(Get(apiError, "type"), "unknown_type")
  }

  function MessageText(apiError: JsValue): string {
    OrElse(Get(apiError, "message"), "No error message provided")
  }

  function ParamText(apiError: JsValue): string {
    IfMissing(Get(apiError, "param"), "n/a")
  }

  /** `[code] type - message (param: param)`: `code`, `type` and `message`
      fall back on any falsy value, `param` only on null and undefined. */
  function StructuredMessage(apiError: JsValue): string {
    Format(CodeText(apiError), KindText(apiError), MessageText(apiError), ParamText(apiError))
  }

  /** Every field's default. */
  const AllDefaults := Format("unknown_error", "unknown_type", "No error message provided", "n/a")

  /** The text between a leading "[" and the first "]" of a message. */
  function CodeOf(msg: string): (r: Option<string>)
    ensures r.Some? ==>
      && 2 + |r.value| <= |msg| && msg[0] == '[' && msg[1 + |r.value|] == ']'
      && msg[1..1 + |r.value|] == r.value
      && forall i | 0 <= i < |r.value| :: r.value[i] != ']'
  {
    if msg == [] || msg[0] != '[' then None
    else match FirstIndex(msg[1..], (c: char) => c == ']')
      case None => None
      case Some(k) => Some(msg[1..][..k])
  }

  /** The code can be read back off a message, provided it holds no "]". */
  lemma FormatCodeRoundTrip(code: string, kind: string, message: string, param: string)
    requires forall i | 0 <= i < |code| :: code[i] != ']'
    ensures CodeOf(Format(code, kind, message, param)) == Some(code)
  {
    var rest := "] " + kind + " - " + message + " (param: " + param + ")";
    var msg := Format(code, kind, message, param);
    assert msg == "[" + code + rest;
    assert msg[1..] == code + rest;
    var found := FirstIndex(msg[1..], (c: char) => c == ']');
    assert msg[1..][|code|] == ']';
    var k := found.value;
    assert k == |code|;
    assert msg[1..][..k] == code;
  }

  /** A structured message leads with the error's code, "unknown_error" when
      the code is falsy. */
  lemma CodeRoundTrip(apiError: JsValue)
    requires forall i | 0 <= i < |CodeText(apiError)| :: CodeText(apiError)[i] != ']'
    ensures CodeOf(StructuredMessage(apiError)) == Some(CodeText(apiError))
    ensures !Truthy(Get(apiError, "code")) ==> CodeOf(StructuredMessage(apiError)) == Some("unknown_error")
  {
    FormatCodeRoundTrip(CodeText(apiError), KindText(apiError), MessageText(apiError), ParamText(apiError));
  }

  /** An error object with no fields, or one that is not an object, gets
      every default. */
  lemma EmptyErrorMessage(apiError: JsValue)
    requires !apiError.Obj? || apiError.fields == map[]
    ensures StructuredMessage(apiError) == AllDefaults
  {
  }

  /** An empty string falls back for `code`, `type` and `message` but not
      for `param`; a zero `param` is written as 0. */
  lemma FalsyVersusNullish()
    ensures var e := Obj(map["code" := Str(""), "type" := Num(0), "message" := Bool(false), "param" := Str("")]);
      StructuredMessage(e) == Format("unknown_error", "unknown_type", "No error message provided", "")
    ensures StructuredMessage(Obj(map["param" := Num(0)]))
      == Format("unknown_error", "unknown_type", "No error message provided", "0")
  {
    var e := Obj(map["code" := Str(""), "type" := Num(0), "message" := Bool(false), "param" := Str("")]);
    assert Get(e, "param") == Str("");
    assert Get(e, "code") == Str("") && Get(e, "type") == Num(0) && Get(e, "message") == Bool(false);
    var z := Obj(map["param" := Num(0)]);
    assert Get(z, "param") == Num(0) && Get(z, "code") == Undefined;
    assert Get(z, "type") == Undefined && Get(z, "message") == Undefined;
    assert NatText(0) == "0";
  }

  /** The message `sendRequest` throws for a response that is not ok; `data`
      is the parsed body, or null when it did not parse. */
  function SendRequestError(data: JsValue, status: int): string {
    var apiError := Get(data, "error");
    if Truthy(apiError) && IsObjectType(apiError) then StructuredMessage(apiError)
    else if Truthy(Get(data, "message")) then Text(Get(data, "message"))
    else if Truthy(Get(data, "detail")) then Text(Get(data, "detail"))
    else "API Error: " + IntText(status)
  }

  /** The message `uploadFile` throws for a response that is not ok. */
  function UploadError(data: JsValue, status: int): string {
    var apiError := Get(data, "error");
    if Truthy(apiError) then StructuredMessage(apiError)
    else "Upload failed with status " + IntText(status)
  }

  /** The two error paths agree on a structured error object; an error that
      is a non-empty string, a non-zero number or true is structured for an
      upload (with every default) but not for a request, which falls back to
      `message`, `detail` and the status. */
  lemma SendVersusUpload(data: JsValue, status: int)
    ensures var e := Get(data, "error");
      Truthy(e) && IsObjectType(e) ==> SendRequestError(data, status) == UploadError(data, status)
    ensures var e := Get(data, "error");
      Truthy(e) && !IsObjectType(e) ==>
        && UploadError(data, status) == AllDefaults
        && SendRequestError(data, status) == SendRequestError(Obj(map["message" := Get(data, "message"), "detail" := Get(data, "detail")]), status)
    ensures !Truthy(Get(data, "error")) ==> UploadError(data, status) == "Upload failed with status " + IntText(status)
  {
    var e := Get(data, "error");
    if Truthy(e) && !IsObjectType(e) {
      EmptyErrorMessage(e);
      var d := Obj(map["message" := Get(data, "message"), "detail" := Get(data, "detail")]);
      assert Get(d, "error") == Undefined;
      assert Get(d, "message") == Get(data, "message") && Get(d, "detail") == Get(data, "detail");
    }
  }

  /** A body that did not parse (null) leaves only the status, which can be
      read back off the message. */
  lemma UnparsedBodyReportsStatus(status: nat)
    ensures SendRequestError(Null, status) == "API Error: " + NatText(status)
    ensures DigitsValue(SendRequestError(Null, status)[11..]) == status
  {
    var msg := SendRequestError(Null, status);
    assert msg == "API Error: " + NatText(status);
    assert msg[11..] == NatText(status);
    NatTextRoundTrip(status);
  }

  /** The outcome of a request: the parsed body, or the thrown message. A
      body that does not parse as JSON is `None`. */
  datatype Outcome = Success(data: JsValue) | Thrown(message: string) | ParseFailure

  /** `sendRequest` after the response arrives: a body that does not parse
      becomes null, and a response that is not ok throws. */
  function SendRequestOutcome(ok: bool, status: int, body: Option<JsValue>): (r: Outcome)
    ensures r.ParseFailure? == false
    ensures ok <==> r.Success?
    ensures ok && body.None? ==> r == Success(Null)
    ensures ok && body.Some? ==> r == Success(body.value)
    ensures !ok ==> r == Thrown(SendRequestError(if body.Some? then body.value else Null, status))
  {
    var data := if body.Some? then body.value else Null;
    if ok then Success(data) else Thrown(SendRequestError(data, status))
  }

  /** `uploadFile` after the response arrives: a body that does not parse
      rethrows the parse error, whatever the status. */
  function UploadOutcome(ok: bool, status: int, body: Option<JsValue>): (r: Outcome)
    ensures body.None? <==> r.ParseFailure?
    ensures r.Success? <==> ok && body.Some?
    ensures body.Some? && ok ==> r == Success(body.value)
    ensures body.Some? && !ok ==> r == Thrown(UploadError(body.value, status))
  {
    if body.None? then ParseFailure
    else if ok then Success(body.value)
    else Thrown(UploadError(body.value, status))
  }

  /** What a caller sees when a response is not ok: a request whose body did
      not parse reports the status, which can be read back; a structured error
      object gives both calls the same message, led by its code; an upload
      without an error reports its status. */
  lemma FailedOutcomes(status: nat, data: JsValue)
    ensures SendRequestOutcome(false, status, None) == Thrown("API Error: " + NatText(status))
    ensures DigitsValue(SendRequestOutcome(false, status, None).message[11..]) == status
    ensures var e := Get(data, "error");
      Truthy(e) && IsObjectType(e) ==>
        && SendRequestOutcome(false, status, Some(data)) == UploadOutcome(false, status, Some(data))
        && SendRequestOutcome(false, status, Some(data)) == Thrown(StructuredMessage(e))
    ensures !Truthy(Get(data, "error")) ==>
      UploadOutcome(false, status, Some(data)) == Thrown("Upload failed with status " + NatText(status))
  {
    UnparsedBodyReportsStatus(status);
    SendVersusUpload(data, status);
  }

  // ---------------------------------------------------------------------
  // The audio MIME type of an upload

  /** `toLowerCase` on ASCII letters. */
  function LowerChar(c: char): char {
    if 'A' <= c <= 'Z' then (c as int + 32) as char else c
  }

  function Lower(s: string): (r: string)
    ensures |r| == |s|
    ensures forall i | 0 <= i < |s| :: !('A' <= r[i] <= 'Z')
    ensures forall i | 0 <= i < |s| :: r[i] == s[i] || ('A' <= s[i] <= 'Z' && r[i] as int == s[i] as int + 32)
  {
    seq(|s|, i requires 0 <= i < |s| => LowerChar(s[i]))
  }

  /** Lowering twice is lowering once. */
  lemma LowerIdempotent(s: string)
    ensures Lower(Lower(s)) == Lower(s)
  {
    var once := Lower(s);
    forall i | 0 <= i < |s| ensures Lower(once)[i] == once[i] {
      assert !('A' <= once[i] <= 'Z');
    }
  }

  lemma LowerAppend(a: string, b: string)
    ensures Lower(a + b) == Lower(a) + Lower(b)
  {
  }

  /** `split(".").pop()`: the text after the last ".", or the whole name
      when it has none. */
  function Extension(s: string): (r: string)
    ensures |r| <= |s| && r == s[|s| - |r|..]
    ensures forall i | 0 <= i < |r| :: r[i] != '.'
    ensures |r| < |s| ==> s[|s| - |r| - 1] == '.'
    decreases |s|
  {
    if s == [] then []
    else if s[|s| - 1] == '.' then []
    else Extension(s[..|s| - 1]) + [s[|s| - 1]]
  }

  /** The audio types an upload can be labelled with. */
  const AudioTypes: set<string> :=
    {"audio/m4a", "audio/mpeg", "audio/wav", "audio/ogg", "audio/flac", "audio/webm", "audio/mp4"}

  /** The switch on the extension; anything unlisted is "audio/m4a". */
  function MimeFor(ext: string): (r: string)
    ensures r in AudioTypes
    ensures ext !in {"m4a", "mp3", "wav", "ogg", "flac", "webm", "mp4", "mpeg", "mpga", "oga"} ==> r == "audio/m4a"
  {
    match ext
    case "m4a" => "audio/m4a"
    case "mp3" => "audio/mpeg"
    case "wav" => "audio/wav"
    case "ogg" => "audio/ogg"
    case "flac" => "audio/flac"
    case "webm" => "audio/webm"
    case "mp4" => "audio/mp4"
    case "mpeg" => "audio/mpeg"
    case "mpga" => "audio/mpeg"
    case "oga" => "audio/ogg"
    case _ => "audio/m4a"
  }

  /** `getAudioMimeType`. */
  function AudioMimeType(fileName: string): string {
    MimeFor(Extension(Lower(fileName)))
  }

  /** The type ignores letter case. */
  lemma MimeIgnoresCase(fileName: string)
    ensures AudioMimeType(Lower(fileName)) == AudioMimeType(fileName)
  {
    LowerIdempotent(fileName);
  }

  /** Only the text after the last "." counts: whatever precedes it, the
      type is the one its extension maps to. */
  lemma {:induction false} ExtensionAfterDot(prefix: string, ext: string)
    requires forall i | 0 <= i < |ext| :: ext[i] != '.'
    ensures Extension(prefix + "." + ext) == ext
  {
    var s := prefix + "." + ext;
    var r := Extension(s);
    assert s[|s| - |ext| - 1] == '.';
    assert forall i | |s| - |ext| <= i < |s| :: s[i] == ext[i - (|s| - |ext|)];
    assert |r| == |ext|;
    assert r == s[|s| - |ext|..] == ext;
  }

  lemma MimeAfterLastDot(prefix: string, ext: string)
    requires forall i | 0 <= i < |ext| :: ext[i] != '.'
    ensures AudioMimeType(prefix + "." + ext) == MimeFor(Lower(ext))
  {
    LowerAppend(prefix + ".", ext);
    LowerAppend(prefix, ".");
    assert Lower(".") == ".";
    ExtensionAfterDot(Lower(prefix), Lower(ext));
  }

  /** A name without "." is its own extension: "mp3" is labelled
      "audio/mpeg", not the fallback. */
  lemma MimeWithoutDot(fileName: string)
    requires forall i | 0 <= i < |fileName| :: fileName[i] != '.'
    ensures AudioMimeType(fileName) == MimeFor(Lower(fileName))
  {
    var low := Lower(fileName);
    var r := Extension(low);
    assert r == low;
  }

  /** A name with no "." such as "mp3" is labelled by its whole text, so
      it is not always the fallback. */
  lemma MimeOfBareExtension()
    ensures AudioMimeType("mp3") == "audio/mpeg"
  {
    var name := "mp3";
    assert Lower(name) == name by {
      assert Lower(name)[0] == 'm' && Lower(name)[1] == 'p' && Lower(name)[2] == '3';
    }
    MimeWithoutDot(name);
  }

  // ---------------------------------------------------------------------
  // The query string

  /** The UTF-8 bytes of one character. */
  function Utf8(c: char): (r: seq<int>)
    ensures 1 <= |r| <= 4
    ensures forall i | 0 <= i < |r| :: 0 <= r[i] < 256
    ensures |r| == 1 <==> c as int < 0x80
    ensures forall i | 1 <= i < |r| :: 0x80 <= r[i] < 0xC0
  {
    var n := c as int;
    if n < 0x80 then [n]
    else if n < 0x800 then [0xC0 + n / 64, 0x80 + n % 64]
    else if n < 0x10000 then [0xE0 + n / 4096, 0x80 + (n / 64) % 64, 0x80 + n % 64]
    else [0xF0 + n / 262144, 0x80 + (n / 4096) % 64, 0x80 + (n / 64) % 64, 0x80 + n % 64]
  }

  function Utf8String(s: string): (r: seq<int>)
    ensures forall i | 0 <= i < |r| :: 0 <= r[i] < 256
  {
    if s == [] then [] else Utf8(s[0]) + Utf8String(s[1..])
  }

  /** The bytes the form encoding writes as themselves: letters, digits and
      `*-._`. */
  predicate Unreserved(b: int) {
    b == 0x2A || b == 0x2D || b == 0x2E || b == 0x5F
    || (0x30 <= b <= 0x39) || (0x41 <= b <= 0x5A) || (0x61 <= b <= 0x7A)
  }

  /** An upper-case hexadecimal digit. */
  function HexDigit(d: int): char
    requires 0 <= d < 16
  {
    if d < 10 then ('0' as int + d) as char else ('A' as int + d - 10) as char
  }

  predicate IsHex(c: char) {
    ('0' <= c <= '9') || ('A' <= c <= 'F') || ('a' <= c <= 'f')
  }

  function HexValue(c: char): int
    requires IsHex(c)
  {
    if '0' <= c <= '9' then c as int - '0' as int
    else if 'A' <= c <= 'F' then c as int - 'A' as int + 10
    else c as int - 'a' as int + 10
  }

  /** One byte of `application/x-www-form-urlencoded`: space as "+",
      unreserved bytes as themselves, anything else as "%XX". */
  function EncodeByte(b: int): (r: string)
    requires 0 <= b < 256
    ensures forall i | 0 <= i < |r| :: r[i] == '+' || r[i] == '%' || Unreserved(r[i] as int)
  {
    if b == 0x20 then "+"
    else if Unreserved(b) then [b as char]
    else ['%', HexDigit(b / 16), HexDigit(b % 16)]
  }

  function EncodeBytes(bs: seq<int>): (r: string)
    requires forall i | 0 <= i < |bs| :: 0 <= bs[i] < 256
    ensures forall i | 0 <= i < |r| :: r[i] == '+' || r[i] == '%' || Unreserved(r[i] as int)
  {
    if bs == [] then [] else EncodeByte(bs[0]) + EncodeBytes(bs[1..])
  }

  /** The form encoding of a string, as `URLSearchParams` writes a name or a
      value. It never writes "&", "=", "?" or "#", so the pairs stay apart. */
  function FormEncode(s: string): (r: string)
    ensures forall i | 0 <= i < |r| :: r[i] !in {'&', '=', '?', '#', ' '}
  {
    EncodeBytes(Utf8String(s))
  }

  /** The form decoding: "+" is a space, "%XX" one byte, any other
      character its UTF-8 bytes. */
  function FormDecode(t: string): seq<int>
    decreases |t|
  {
    if t == [] then []
    else if t[0] == '+' then [0x20] + FormDecode(t[1..])
    else if t[0] == '%' && |t| >= 3 && IsHex(t[1]) && IsHex(t[2]) then
      [HexValue(t[1]) * 16 + HexValue(t[2])] + FormDecode(t[3..])
    else Utf8(t[0]) + FormDecode(t[1..])
  }

  /** Decoding one encoded byte in front of more text. */
  lemma DecodeByte(b: int, rest: string)
    requires 0 <= b < 256
    ensures FormDecode(EncodeByte(b) + rest) == [b] + FormDecode(rest)
  {
    var t := EncodeByte(b) + rest;
    if b == 0x20 {
      assert t[1..] == rest;
    } else if Unreserved(b) {
      assert t[0] == b as char && t[1..] == rest;
    } else {
      assert t[0] == '%' && t[1] == HexDigit(b / 16) && t[2] == HexDigit(b % 16);
      assert t[3..] == rest;
    }
  }

  /** Decoding undoes encoding, byte for byte. */
  lemma {:induction false} DecodeEncodeBytes(bs: seq<int>)
    requires forall i | 0 <= i < |bs| :: 0 <= bs[i] < 256
    ensures FormDecode(EncodeBytes(bs)) == bs
    decreases |bs|
  {
    if bs != [] {
      DecodeEncodeBytes(bs[1..]);
      DecodeByte(bs[0], EncodeBytes(bs[1..]));
      assert [bs[0]] + bs[1..] == bs;
    }
  }

  /** A form-encoded string decodes to the UTF-8 bytes of the original. */
  lemma FormRoundTrip(s: string)
    ensures FormDecode(FormEncode(s)) == Utf8String(s)
  {
    DecodeEncodeBytes(Utf8String(s));
  }

  /** `new URLSearchParams(queries).toString()`: `name=value` pairs joined
      by "&", in the record's key order. */
  function Serialize(pairs: seq<(string, string)>): (r: string)
    ensures pairs == [] <==> r == []
  {
    if pairs == [] then []
    else
      var first := FormEncode(pairs[0].0) + "=" + FormEncode(pairs[0].1);
      if |pairs| == 1 then first else first + "&" + Serialize(pairs[1..])
  }

  /** `buildQueryString`. `None` is a missing record. */
  function BuildQueryString(queries: Option<seq<(string, string)>>): (r: string)
    ensures r == [] <==> queries.None? || queries.value == []
    ensures r != [] ==> r[0] == '?' && r[1..] == Serialize(queries.value)
  {
    if queries.None? || |queries.value| == 0 then "" else "?" + Serialize(queries.value)
  }

  // ---------------------------------------------------------------------
  // The request

  datatype Method = GET | POST

  /** `options.body`: a `FormData` (its fields), or any other value. */
  datatype Payload = FormPayload(fields: seq<(string, string)>) | Value(v: JsValue)

  /** What is sent: nothing, the form as is, or the value as JSON text. */
  datatype Body = NoBody | FormBody(fields: seq<(string, string)>) | JsonBody(v: JsValue)

  /** `buildRequestBody`. */
  function BuildRequestBody(p: Payload): (r: Body)
    ensures r.NoBody? <==> p == Value(Undefined)
    ensures p.FormPayload? ==> r == FormBody(p.fields)
    ensures r.JsonBody? ==> p == Value(r.v) && r.v != Undefined
  {
    match p
    case FormPayload(fields) => FormBody(fields)
    case Value(v) => if v != Undefined then JsonBody(v) else NoBody
  }

  datatype RequestOptions = RequestOptions(
    httpMethod: Option<Method>,
    body: Payload,
    headers: seq<(string, string)>,
    queries: Option<seq<(string, string)>>)

  /** The options `sendRequest` uses when given none. */
  const NoOptions := RequestOptions(None, Value(Undefined), [], None)

  datatype Request = Request(httpMethod: Method, url: string, headers: seq<(string, string)>, body: Body)

  /** The request `sendRequest` hands to `fetch`. */
  function RequestFor(url: string, endpoint: string, options: RequestOptions): Request {
    Request(
      if options.httpMethod.Some? then options.httpMethod.value else GET,
      url + endpoint + BuildQueryString(options.queries),
      options.headers,
      BuildRequestBody(options.body))
  }

  /** Without options the request is a bodiless GET of `url + endpoint`;
      queries only ever add a "?" and the pairs after it. */
  lemma RequestShape(url: string, endpoint: string, options: RequestOptions)
    ensures RequestFor(url, endpoint, NoOptions) == Request(GET, url + endpoint, [], NoBody)
    ensures var r := RequestFor(url, endpoint, options);
      && r.url[..|url + endpoint|] == url + endpoint
      && (|r.url| == |url + endpoint| <==> options.queries.None? || options.queries.value == [])
  {
  }
}
