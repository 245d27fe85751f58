/**
  The parameters of a `WWW-Authenticate: Payment ...` challenge: splitAuthParams, unquote and the loop of
  parseMppChallengeHeader in packages/providers/src/mpp.ts.
 */
module AuthParams {
  import opened Basics
  import opened Text

  // ----- splitAuthParams -----

  /** The scanner's state: the element being read, inside quotes or not, just after a backslash or not. */
  function SplitFrom(rest: string, current: string, quoted: bool, escaped: bool): seq<string>
    decreases |rest|
  {
    if rest == "" then [current]
    else
      var c, more := rest[0], rest[1..];
      if escaped then SplitFrom(more, current + [c], quoted, false)
      else if c == '\\' && quoted then SplitFrom(more, current + [c], quoted, true)
      else if c == '"' then SplitFrom(more, current + [c], !quoted, false)
      else if c == ',' && !quoted then [current] + SplitFrom(more, "", quoted, false)
      else SplitFrom(more, current + [c], quoted, false)
  }

  /** Trimmed pieces that are not empty. */
  function Kept(pieces: seq<string>): seq<string> {
    if pieces == [] then []
    else (if Blank(pieces[0]) then [] else [Trim(pieces[0])]) + Kept(pieces[1..])
  }

  function SplitAuthParams(input: string): seq<string> {
    Kept(SplitFrom(input, "", false, false))
  }

  // ----- unquote -----

  /** value.replace(/\\"/g, '"') */
  function ReplaceEscapedQuotes(s: string): string {
    if s == "" then ""
    else if |s| >= 2 && s[0] == '\\' && s[1] == '"' then ['"'] + ReplaceEscapedQuotes(s[2..])
    else [s[0]] + ReplaceEscapedQuotes(s[1..])
  }

  /** value.replace(/\\\\/g, "\\") */
  function ReplaceEscapedBackslashes(s: string): string {
    if s == "" then ""
    else if |s| >= 2 && s[0] == '\\' && s[1] == '\\' then ['\\'] + ReplaceEscapedBackslashes(s[2..])
    else [s[0]] + ReplaceEscapedBackslashes(s[1..])
  }

  function Unquote(value: string): string {
    var trimmed := Trim(value);
    if trimmed == "" || trimmed[0] != '"' || trimmed[|trimmed| - 1] != '"' then trimmed
    else
      var inner := if |trimmed| == 1 then "" else trimmed[1..|trimmed| - 1];
      ReplaceEscapedBackslashes(ReplaceEscapedQuotes(inner))
  }

  // ----- the parameter loop -----

  /** part.indexOf("="), or the length when there is none. */
  function EqualsIndex(part: string): (i: nat)
    ensures i <= |part|
  {
    if part == "" || part[0] == '=' then 0 else 1 + EqualsIndex(part[1..])
  }

  type Params = map<string, string>

  /** One part: a part without "=", or with nothing before it, is skipped. */
  function WithPart(params: Params, part: string): Params {
    var equals := EqualsIndex(part);
    if equals == 0 || equals == |part| then params
    else params[Trim(part[..equals]) := Unquote(part[equals + 1..])]
  }

  function WithParts(params: Params, parts: seq<string>): Params
    decreases |parts|
  {
    if parts == [] then params else WithParts(WithPart(params, parts[0]), parts[1..])
  }

  function ParseParams(input: string): Params {
    WithParts(map[], SplitAuthParams(input))
  }

  // ----- the header -----

  datatype HeaderError = NotAPaymentChallenge | MissingParam(name: string)

  const REQUIRED: seq<string> := ["id", "realm", "method", "intent", "request"]

  function Lower(c: char): char {
    if 'A' <= c <= 'Z' then c - 'A' + 'a' else c
  }

  /** `^Payment\s+` without regard to case. */
  predicate HasMarker(header: string) {
    && |header| >= 8
    && (forall i :: 0 <= i < 7 ==> Lower(header[i]) == "payment"[i])
    && IsWhitespace(header[7])
  }

  function FirstMissing(params: Params, names: seq<string>): Option<string> {
    if names == [] then None
    else if names[0] !in params || params[names[0]] == "" then Some(names[0])
    else FirstMissing(params, names[1..])
  }

  /** parseMppChallengeHeader up to the decoding of the request field. */
  function ParseHeader(header: string): Result<Params, HeaderError> {
    if !HasMarker(header) then Err(NotAPaymentChallenge)
    else
      var params := ParseParams(TrimStart(header[7..]));
      match FirstMissing(params, REQUIRED)
      case Some(name) => Err(MissingParam(name))
      case None => Ok(params)
  }

  // ----- RFC 9110: tokens, quoted strings, lists of parameters -----

  /** tchar of section 5.6.2. */
  predicate IsTokenChar(c: char) {
    'a' <= c <= 'z' || 'A' <= c <= 'Z' || '0' <= c <= '9'
    || c in {'!', '#', '$', '%', '&', '\'', '*', '+', '-', '.', '^', '_', '`', '|', '~'}
  }

  predicate IsToken(s: string) {
    s != "" && forall i :: 0 <= i < |s| ==> IsTokenChar(s[i])
  }

  /** The inside of a quoted-string (section 5.6.4): no bare quote, and every backslash begins a pair. */
  predicate Interior(s: string) {
    if s == "" then true
    else if s[0] == '\\' then |s| >= 2 && Interior(s[2..])
    else s[0] != '"' && Interior(s[1..])
  }

  /** What section 5.6.4 asks a recipient to do: replace every quoted-pair by its second character. */
  function RfcUnescape(s: string): string
    requires Interior(s)
  {
    if s == "" then ""
    else if s[0] == '\\' then [s[1]] + RfcUnescape(s[2..])
    else [s[0]] + RfcUnescape(s[1..])
  }

  /** A single left-to-right pass over the pairs \" and \\ alone. */
  function UnescapeOnce(s: string): string {
    if s == "" then ""
    else if |s| >= 2 && s[0] == '\\' && (s[1] == '"' || s[1] == '\\') then [s[1]] + UnescapeOnce(s[2..])
    else [s[0]] + UnescapeOnce(s[1..])
  }

  /** No quoted pair other than \" and \\. */
  predicate PlainPairs(s: string)
    requires Interior(s)
  {
    if s == "" then true
    else if s[0] == '\\' then (s[1] == '"' || s[1] == '\\') && PlainPairs(s[2..])
    else PlainPairs(s[1..])
  }

  /** A sender that escapes only the quote and the backslash. */
  function Escape(value: string): string {
    if value == "" then ""
    else (if value[0] == '"' || value[0] == '\\' then ['\\', value[0]] else [value[0]]) + Escape(value[1..])
  }

  /** One list element, with the white space a sender may put around its pieces. */
  datatype Element =
    | Empty(pad: string)
    | QuotedParam(before: string, key: string, left: string, right: string, value: string, after: string)
    | TokenParam(before: string, key: string, left: string, right: string, value: string, after: string)

  predicate WellFormed(e: Element) {
    match e
    case Empty(pad) => AllWhitespace(pad)
    case QuotedParam(before, key, left, right, _, after) =>
      && AllWhitespace(before) && AllWhitespace(left) && AllWhitespace(right) && AllWhitespace(after) && IsToken(key)
    case TokenParam(before, key, left, right, value, after) =>
      && AllWhitespace(before) && AllWhitespace(left) && AllWhitespace(right) && AllWhitespace(after)
      && IsToken(key) && IsToken(value)
  }

  function ValueText(e: Element): string
    requires !e.Empty?
  {
    if e.QuotedParam? then "\"" + Escape(e.value) + "\"" else e.value
  }

  function ElementText(e: Element): string {
    if e.Empty? then e.pad
    else e.before + (e.key + e.left + "=" + (e.right + ValueText(e))) + e.after
  }

  /** The elements separated by commas. */
  function ListText(es: seq<Element>): string
    requires es != []
  {
    if |es| == 1 then ElementText(es[0]) else ElementText(es[0]) + "," + ListText(es[1..])
  }

  /** What the list means: later parameters replace earlier ones of the same name. */
  function Meaning(es: seq<Element>, params: Params): Params
    decreases |es|
  {
    if es == [] then params
    else Meaning(es[1..], if es[0].Empty? then params else params[es[0].key := es[0].value])
  }
}
