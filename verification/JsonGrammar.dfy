/**
 What `Json::Reader` makes of a document, as functions of the characters that remain: tokens,
 number and string decoding, and the recursive descent with its error recovery.
 */
module JsonGrammar {
  import opened Options
  import opened JsonValue
  import opened JsonText

  datatype Kind =
    | EndOfStream | ObjectBegin | ObjectEnd | ArrayBegin | ArrayEnd | StringToken | NumberToken
    | TrueToken | FalseToken | NullToken | ArraySeparator | MemberSeparator | CommentToken | ErrorToken

  /** `left` is the number of characters left at the token's first, which fixes its location. */
  datatype Token = Token(kind: Kind, text: string, left: nat)

  /** `scan` is what the platform's `sscanf` reads as a double. */
  datatype Config = Config(allowComments: bool, strictRoot: bool, scan: string -> Option<real>)

  // ---------- Tokens ----------

  /** The rest after a string's closing quote, escapes being skipped in pairs. */
  function StringBody(s: string): (r: (bool, string))
    ensures |r.1| <= |s|
  {
    if s == [] then (false, s)
    else if s[0] == '\"' then (true, s[1..])
    else if s[0] == '\\' then StringBody(if |s| == 1 then [] else s[2..])
    else StringBody(s[1..])
  }

  function CStyleComment(s: string): (r: (bool, string))
    ensures |r.1| <= |s|
  {
    if s == [] then (false, s)
    else if s[0] == '*' && |s| > 1 && s[1] == '/' then (true, s[2..])
    else CStyleComment(s[1..])
  }

  function CppStyleComment(s: string): (r: string)
    ensures |r| <= |s|
  {
    if s == [] then s else if s[0] == '\r' || s[0] == '\n' then s[1..] else CppStyleComment(s[1..])
  }

  /** The rest of a comment after its first slash. */
  function Comment(s: string): (r: (bool, string))
    ensures |r.1| <= |s|
  {
    if s == [] then (false, s)
    else if s[0] == '*' then CStyleComment(s[1..])
    else if s[0] == '/' then (true, CppStyleComment(s[1..]))
    else (false, s[1..])
  }

  predicate IsNumberChar(c: char) {
    IsDigit(c) || c in {'.', 'e', 'E', '+', '-'}
  }

  function AfterNumber(s: string): (r: string)
    ensures |r| <= |s|
  {
    if s != [] && IsNumberChar(s[0]) then AfterNumber(s[1..]) else s
  }

  function Match(s: string, pattern: string): (r: (bool, string))
    ensures |r.1| <= |s|
  {
    if pattern <= s then (true, s[|pattern|..]) else (false, s)
  }

  /** The kind of the token that begins with `c`, and what is left of `s`, the text after `c`. */
  function Classify(c: char, s: string): (r: (Kind, string))
    ensures |r.1| <= |s|
  {
    if c == '{' then (ObjectBegin, s)
    else if c == '}' then (ObjectEnd, s)
    else if c == '[' then (ArrayBegin, s)
    else if c == ']' then (ArrayEnd, s)
    else if c == ',' then (ArraySeparator, s)
    else if c == ':' then (MemberSeparator, s)
    else if c == '\0' then (EndOfStream, s)
    else if c == '\"' then Checked(StringBody(s), StringToken)
    else if c == '/' then Checked(Comment(s), CommentToken)
    else if IsDigit(c) || c == '-' then (NumberToken, AfterNumber(s))
    else if c == 't' then Checked(Match(s, "rue"), TrueToken)
    else if c == 'f' then Checked(Match(s, "alse"), FalseToken)
    else if c == 'n' then Checked(Match(s, "ull"), NullToken)
    else (ErrorToken, s)
  }

  function Checked(r: (bool, string), kind: Kind): (Kind, string) {
    (if r.0 then kind else ErrorToken, r.1)
  }

  lemma {:induction false} SkipSpacesShortens(s: string)
    ensures |SkipSpaces(s)| <= |s|
  {
    if s != [] && IsSpace(s[0]) { SkipSpacesShortens(s[1..]); }
  }

  function ReadToken(s: string): (r: (Token, string))
    ensures |r.1| <= |s|
    ensures r.0.kind != EndOfStream ==> |r.1| < |s|
    ensures r.0.kind == StringToken ==> |r.0.text| > 0
  {
    SkipSpacesShortens(s);
    var t := SkipSpaces(s);
    if t == [] then (Token(EndOfStream, "", 0), t)
    else
      var (kind, rest) := Classify(t[0], t[1..]);
      (Token(kind, t[..|t| - |rest|], |t|), rest)
  }

  /** The next token that is no comment. */
  function ReadPastComments(s: string): (r: (Token, string))
    ensures |r.1| <= |s|
    ensures r.0.kind != EndOfStream ==> |r.1| < |s|
    ensures r.0.kind != CommentToken
    decreases |s|
  {
    var (token, rest) := ReadToken(s);
    if token.kind == CommentToken then ReadPastComments(rest) else (token, rest)
  }

  /** `skipCommentTokens`: comments are skipped only where the features allow them. */
  function NextToken(cfg: Config, s: string): (r: (Token, string))
    ensures |r.1| <= |s|
    ensures r.0.kind != EndOfStream ==> |r.1| < |s|
  {
    if cfg.allowComments then ReadPastComments(s) else ReadToken(s)
  }

  /** `recoverFromError`: skip to the given kind of token. */
  function Recover(s: string, until: Kind): (r: string)
    ensures |r| <= |s|
    decreases |s|
  {
    var (token, rest) := ReadToken(s);
    if token.kind == until || token.kind == EndOfStream then rest else Recover(rest, until)
  }

  // ---------- Numbers ----------

  datatype Decoded<T> = Good(value: T) | Bad(message: string)

  datatype IntegerScan = Fits(n: nat) | TooBig | NotDigits

  /** The digit loop of `decodeNumber`, in 64-bit unsigned arithmetic. */
  function ScanInteger(s: string, value: nat, threshold: nat, lastDigit: nat): IntegerScan
    decreases s
  {
    if s == [] then Fits(value)
    else if !IsDigit(s[0]) then NotDigits
    else if value >= threshold && (|s| > 1 || DigitValue(s[0]) > lastDigit) then TooBig
    else ScanInteger(s[1..], (value * 10 + DigitValue(s[0])) % TWO_64, threshold, lastDigit)
  }

  predicate LooksDouble(text: string) {
    exists i :: 0 <= i < |text| && (text[i] in {'.', 'e', 'E', '+'} || (text[i] == '-' && i > 0))
  }

  function MaxInteger(negative: bool): nat {
    if negative then TWO_63 else TWO_64 - 1
  }

  /** The bits of an unsigned 64-bit integer read as a signed one. */
  function ToSigned64(n: nat): int {
    if n % TWO_64 >= TWO_63 then n % TWO_64 - TWO_64 else n % TWO_64
  }

  /** 64-bit negation, which leaves the least integer as it is. */
  function NegateSigned(n: int): int {
    if n == -TWO_63 then n else -n
  }

  function IntegerValue(negative: bool, n: nat): Value {
    if negative then Int(NegateSigned(ToSigned64(n)))
    else if n <= MAX_INT then Int(n)
    else UInt(n)
  }

  function NotANumber(text: string): string {
    "'" + text + "' is not a number."
  }

  function DecodeDouble(cfg: Config, text: string): Decoded<Value> {
    match cfg.scan(text)
    case Some(r) => Good(Real(r))
    case None => Bad(NotANumber(text))
  }

  function DecodeNumber(cfg: Config, text: string): Decoded<Value> {
    if LooksDouble(text) then DecodeDouble(cfg, text)
    else
      var negative := text != [] && text[0] == '-';
      var max := MaxInteger(negative);
      match ScanInteger(if negative then text[1..] else text, 0, max / 10, max % 10)
      case Fits(n) => Good(IntegerValue(negative, n))
      case TooBig => DecodeDouble(cfg, text)
      case NotDigits => Bad(NotANumber(text))
  }

  // ---------- Strings ----------

  function HexValue(c: char): (d: Option<nat>)
    ensures d.Some? ==> d.value < 16
  {
    if '0' <= c <= '9' then Some(c as int - '0' as int)
    else if 'a' <= c <= 'f' then Some(c as int - 'a' as int + 10)
    else if 'A' <= c <= 'F' then Some(c as int - 'A' as int + 10)
    else None
  }

  /** `decodeUnicodeEscapeSequence`: four hexadecimal digits. */
  function Hex4(s: string): (r: Decoded<int>)
    ensures r.Good? ==> |s| >= 4 && 0 <= r.value < 0x10000
  {
    if |s| < 4 then Bad("Bad unicode escape sequence in string: four digits expected.")
    else
      var a, b, c, d := HexValue(s[0]), HexValue(s[1]), HexValue(s[2]), HexValue(s[3]);
      if a.None? || b.None? || c.None? || d.None? then Bad("Bad unicode escape sequence in string: hexadecimal digit expected.")
      else
        Good(((a.value * 16 + b.value) * 16 + c.value) * 16 + d.value)
  }

  /** `decodeUnicodeCodePoint`: one escape, or two that form a surrogate pair; and how many characters it took. */
  function CodePoint(s: string): (r: Decoded<(int, int)>)
    ensures r.Good? ==> 0 <= r.value.0 && 0 < r.value.1 <= |s|
  {
    match Hex4(s)
    case Bad(m) => Bad(m)
    case Good(high) =>
      if !(0xD800 <= high <= 0xDBFF) then Good((high, 4))
      else
        var t := s[4..];
        if |t| < 6 then Bad("additional six characters expected to parse unicode surrogate pair.")
        else if t[0] != '\\' || t[1] != 'u' then Bad("expecting another \\u token to begin the second half of a unicode surrogate pair")
        else
          match Hex4(t[2..])
          case Bad(m) => Bad(m)
          case Good(low) => Good((0x10000 + (high % 0x400) * 0x400 + low % 0x400, 10))
  }

  /** `codePointToUTF8`, one character a byte. */
  function Utf8(cp: nat): string {
    if cp <= 0x7F then [cp as char]
    else if cp <= 0x7FF then [(0xC0 + cp / 0x40) as char, (0x80 + cp % 0x40) as char]
    else if cp <= 0xFFFF then [(0xE0 + cp / 0x1000) as char, (0x80 + cp / 0x40 % 0x40) as char, (0x80 + cp % 0x40) as char]
    else if cp <= 0x10FFFF then
      [(0xF0 + cp / 0x40000) as char, (0x80 + cp / 0x1000 % 0x40) as char, (0x80 + cp / 0x40 % 0x40) as char, (0x80 + cp % 0x40) as char]
    else ""
  }

  function SimpleEscape(c: char): Option<char> {
    if c in {'\"', '/', '\\'} then Some(c)
    else if c == 'b' then Some(BACKSPACE)
    else if c == 'f' then Some(FORM_FEED)
    else if c == 'n' then Some('\n')
    else if c == 'r' then Some('\r')
    else if c == 't' then Some('\t')
    else None
  }

  function Prepend(front: string, d: Decoded<string>): Decoded<string> {
    match d
    case Good(t) => Good(front + t)
    case Bad(m) => Bad(m)
  }

  /** `decodeString` on the characters between the quotes. */
  function DecodeBody(s: string): Decoded<string>
    decreases |s|
  {
    if s == [] || s[0] == '\"' then Good("")
    else if s[0] != '\\' then Prepend([s[0]], DecodeBody(s[1..]))
    else if |s| == 1 then Bad("Empty escape sequence in string")
    else if SimpleEscape(s[1]).Some? then Prepend([SimpleEscape(s[1]).value], DecodeBody(s[2..]))
    else if s[1] == 'u' then
      match CodePoint(s[2..])
      case Bad(m) => Bad(m)
      case Good((cp, n)) => Prepend(Utf8(cp), DecodeBody(s[2 + n..]))
    else Bad("Bad escape sequence in string")
  }

  function DecodeString(text: string): Decoded<string> {
    DecodeBody(if |text| < 2 then "" else text[1..|text| - 1])
  }

  /** What a C string shows of a text: everything before the first NUL. */
  function CString(s: string): string {
    if s == [] || s[0] == '\0' then "" else [s[0]] + CString(s[1..])
  }

  // ---------- Objects as sorted maps ----------

  function FindMember(ms: seq<Member>, name: string): Option<Value> {
    if ms == [] then None
    else if StringLess(ms[0].name, name) then FindMember(ms[1..], name)
    else if ms[0].name == name then Some(ms[0].value)
    else None
  }

  /** `resolveReference` followed by an assignment. */
  function SetMember(ms: seq<Member>, name: string, v: Value): seq<Member> {
    if ms == [] then [Member(name, v)]
    else if StringLess(ms[0].name, name) then [ms[0]] + SetMember(ms[1..], name, v)
    else if ms[0].name == name then [Member(name, v)] + ms[1..]
    else [Member(name, v)] + ms
  }

  function MemberOrNull(ms: seq<Member>, name: string): Value {
    match FindMember(ms, name)
    case Some(v) => v
    case None => Null
  }

  // ---------- Values ----------

  datatype Error = Error(message: string, left: nat)

  /** `value` is what the current node holds afterwards; `errors` are the ones recorded for good. */
  datatype Parsed = Parsed(ok: bool, rest: string, value: Value, errors: seq<Error>)

  /** Success consumes something and records nothing; failure records something. */
  predicate Settled(p: Parsed, s: string) {
    && |p.rest| <= |s|
    && (p.ok ==> |p.rest| < |s|)
    && (p.ok <==> p.errors == [])
  }

  function Failed(message: string, token: Token, rest: string, until: Kind, value: Value): Parsed {
    Parsed(false, Recover(rest, until), value, [Error(message, token.left)])
  }

  function FromDecoded(d: Decoded<Value>, token: Token, rest: string, before: Value): Parsed {
    match d
    case Good(v) => Parsed(true, rest, v, [])
    case Bad(m) => Parsed(false, rest, before, [Error(m, token.left)])
  }

  /** `decodeString( token )` */
  function StringValue(text: string): Decoded<Value> {
    match DecodeString(text)
    case Good(t) => Good(String(CString(t)))
    case Bad(m) => Bad(m)
  }

  const SYNTAX_ERROR := "Syntax error: value, object or array expected."
  const MISSING_COLON := "Missing ':' after object member name"
  const MISSING_COMMA_OR_BRACE := "Missing ',' or '}' in object declaration"
  const MISSING_BRACE_OR_NAME := "Missing '}' or object member name"
  const MISSING_COMMA_OR_BRACKET := "Missing ',' or ']' in array declaration"

  /** A value that is a single token. */
  function ParseScalar(cfg: Config, token: Token, rest: string, before: Value): (p: Parsed)
    ensures p.rest == rest && (p.ok <==> p.errors == [])
    ensures token.kind == EndOfStream ==> !p.ok
  {
    match token.kind
    case NumberToken => FromDecoded(DecodeNumber(cfg, token.text), token, rest, before)
    case StringToken => FromDecoded(StringValue(token.text), token, rest, before)
    case TrueToken => Parsed(true, rest, Bool(true), [])
    case FalseToken => Parsed(true, rest, Bool(false), [])
    case NullToken => Parsed(true, rest, Null, [])
    case _ => Parsed(false, rest, before, [Error(SYNTAX_ERROR, token.left)])
  }

  /** `readValue`, `before` being what the current node held before. */
  function ParseValue(cfg: Config, s: string, before: Value): (p: Parsed)
    ensures Settled(p, s)
    decreases |s|, 0
  {
    var (token, rest) := NextToken(cfg, s);
    match token.kind
    case ObjectBegin => ParseMembers(cfg, rest, "", [])
    case ArrayBegin => ParseArray(cfg, rest)
    case _ => ParseScalar(cfg, token, rest, before)
  }

  /** `readArray`, after the opening bracket. */
  function ParseArray(cfg: Config, s: string): (p: Parsed)
    ensures Settled(p, s)
    decreases |s|, 2
  {
    SkipSpacesShortens(s);
    var t := SkipSpaces(s);
    if t != [] && t[0] == ']' then Parsed(true, t[1..], Array([]), [])
    else ParseItems(cfg, t, [])
  }

  function ParseItems(cfg: Config, s: string, items: seq<Value>): (p: Parsed)
    ensures Settled(p, s)
    decreases |s|, 1
  {
    var v := ParseValue(cfg, s, Null);
    var items' := items + [v.value];
    if !v.ok then Parsed(false, Recover(v.rest, ArrayEnd), Array(items'), v.errors)
    else ParseItemEnd(cfg, v.rest, items')
  }

  /** What follows an element. */
  function ParseItemEnd(cfg: Config, s: string, items: seq<Value>): (p: Parsed)
    ensures Settled(p, s)
    decreases |s|, 2
  {
    var (token, rest) := ReadPastComments(s);
    match token.kind
    case ArrayEnd => Parsed(true, rest, Array(items), [])
    case ArraySeparator => ParseItems(cfg, rest, items)
    case _ => Failed(MISSING_COMMA_OR_BRACKET, token, rest, ArrayEnd, Array(items))
  }

  /** `readObject`, before each member; `name` is the member name read last. */
  function ParseMembers(cfg: Config, s: string, name: string, ms: seq<Member>): (p: Parsed)
    ensures Settled(p, s)
    decreases |s|, 1
  {
    var (token, rest) := ReadPastComments(s);
    if token.kind == ObjectEnd && name == "" then Parsed(true, rest, Object(ms), [])
    else if token.kind != StringToken then Failed(MISSING_BRACE_OR_NAME, token, rest, ObjectEnd, Object(ms))
    else ParseNamed(cfg, token, rest, ms)
  }

  /** A member, `token` being its name. */
  function ParseNamed(cfg: Config, token: Token, s: string, ms: seq<Member>): (p: Parsed)
    ensures Settled(p, s)
    decreases |s|, 4
  {
    match DecodeString(token.text)
    case Bad(m) => Failed(m, token, s, ObjectEnd, Object(ms))
    case Good(name) => ParseColon(cfg, s, name, ms)
  }

  /** What follows a member's name. */
  function ParseColon(cfg: Config, s: string, name: string, ms: seq<Member>): (p: Parsed)
    ensures Settled(p, s)
    decreases |s|, 3
  {
    var (colon, rest) := ReadToken(s);
    if colon.kind != MemberSeparator then Failed(MISSING_COLON, colon, rest, ObjectEnd, Object(ms))
    else ParseMember(cfg, rest, name, ms)
  }

  /** One member's value. */
  function ParseMember(cfg: Config, s: string, name: string, ms: seq<Member>): (p: Parsed)
    ensures Settled(p, s)
    decreases |s|, 2
  {
    var key := CString(name);
    var v := ParseValue(cfg, s, MemberOrNull(ms, key));
    var ms' := SetMember(ms, key, v.value);
    if !v.ok then Parsed(false, Recover(v.rest, ObjectEnd), Object(ms'), v.errors)
    else ParseMemberEnd(cfg, v.rest, name, ms')
  }

  /** What follows a member's value. */
  function ParseMemberEnd(cfg: Config, s: string, name: string, ms: seq<Member>): (p: Parsed)
    ensures Settled(p, s)
    decreases |s|, 2
  {
    var (comma, rest) := ReadToken(s);
    if comma.kind !in {ObjectEnd, ArraySeparator, CommentToken} then
      Failed(MISSING_COMMA_OR_BRACE, comma, rest, ObjectEnd, Object(ms))
    else
      var (last, after) := if comma.kind == CommentToken then ReadPastComments(rest) else (comma, rest);
      if last.kind == ObjectEnd then Parsed(true, after, Object(ms), []) else ParseMembers(cfg, after, name, ms)
  }

  const NOT_A_DOCUMENT := "A valid JSON document must be either an array or an object value."

  /** `parse`: one value, whatever follows it being ignored. */
  function ParseDocument(cfg: Config, document: string): (p: Parsed)
  {
    var p := ParseValue(cfg, document, Null);
    if cfg.strictRoot && !p.value.Array? && !p.value.Object? then
      p.(ok := false, errors := p.errors + [Error(NOT_A_DOCUMENT, |document|)])
    else p
  }
}
