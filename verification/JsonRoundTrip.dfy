/**
 The reader undoes the printers.  Any document that spells the tokens of a value, with whatever
 whitespace between them, parses without an error and yields the value, up to the integer tag
 that `decodeNumber` chooses; and `decodeNumber` is exact on just the integers of 64 bits.
 */
module JsonRoundTrip {
  import opened Options
  import opened JsonValue
  import opened JsonText
  import opened JsonGrammar
  import JsonWriter
  import JsonSpelling

  // ---------- Values that are printed exactly ----------

  predicate NulFree(s: string) {
    forall i :: 0 <= i < |s| ==> s[i] != '\0'
  }

  /** The names of a map are in strictly increasing order. */
  predicate Sorted(ms: seq<Member>) {
    forall i, j :: 0 <= i < j < |ms| ==> StringLess(ms[i].name, ms[j].name)
  }

  /** No doubles; everything else is what the C++ types enforce. */
  predicate WellFormed(v: Value)
    decreases v
  {
    match v
    case Int(n) => -TWO_63 <= n < TWO_63
    case UInt(u) => 0 <= u < TWO_64
    case Real(_) => false
    case String(s) => NulFree(s)
    case Array(xs) => forall i :: 0 <= i < |xs| ==> WellFormed(xs[i])
    case Object(ms) => Sorted(ms) && forall i :: 0 <= i < |ms| ==> NulFree(ms[i].name) && WellFormed(ms[i].value)
    case _ => true
  }

  /** Integers up to `maxInt` are read as signed, greater ones as unsigned. */
  function Retag(n: int): Value {
    if n <= MAX_INT then Int(n) else UInt(n)
  }

  /** The value with its integers tagged as `decodeNumber` tags them. */
  function Norm(v: Value): Value
    decreases v
  {
    match v
    case Int(n) => Retag(n)
    case UInt(u) => Retag(u)
    case Array(xs) => Array(NormItems(xs))
    case Object(ms) => Object(NormMembers(ms))
    case _ => v
  }

  function NormItems(xs: seq<Value>): (r: seq<Value>)
    ensures |r| == |xs|
    decreases xs
  {
    if xs == [] then [] else [Norm(xs[0])] + NormItems(xs[1..])
  }

  function NormMembers(ms: seq<Member>): (r: seq<Member>)
    ensures |r| == |ms|
    ensures forall i :: 0 <= i < |ms| ==> r[i].name == ms[i].name
    decreases ms
  {
    if ms == [] then [] else [NormMember(ms[0])] + NormMembers(ms[1..])
  }

  function NormMember(m: Member): Member
    decreases m
  {
    Member(m.name, Norm(m.value))
  }

  // ---------- decodeNumber ----------

  predicate AllDigits(s: string) {
    forall i :: 0 <= i < |s| ==> IsDigit(s[i])
  }

  /** The digit loop before the last digit, where reaching the threshold means too big. */
  function Prefix(s: string, value: nat, threshold: nat): Option<nat>
    requires AllDigits(s)
    decreases s
  {
    if s == [] then Some(value)
    else if value >= threshold then None
    else Prefix(s[1..], (value * 10 + DigitValue(s[0])) % TWO_64, threshold)
  }

  lemma {:induction false} PrefixSnoc(s: string, c: char, value: nat, threshold: nat)
    requires AllDigits(s) && IsDigit(c)
    ensures AllDigits(s + [c])
    ensures
      var p := Prefix(s, value, threshold);
      Prefix(s + [c], value, threshold) ==
        if p.None? || p.value >= threshold then None else Some((p.value * 10 + DigitValue(c)) % TWO_64)
  {
    if s == [] {
      assert [c][1..] == [] && s + [c] == [c];
    } else if value < threshold {
      assert (s + [c])[1..] == s[1..] + [c];
      PrefixSnoc(s[1..], c, (value * 10 + DigitValue(s[0])) % TWO_64, threshold);
    }
  }

  lemma {:induction false} ScanSnoc(s: string, c: char, value: nat, threshold: nat, lastDigit: nat)
    requires AllDigits(s) && IsDigit(c)
    ensures
      var p := Prefix(s, value, threshold);
      ScanInteger(s + [c], value, threshold, lastDigit) ==
        if p.None? || (p.value >= threshold && DigitValue(c) > lastDigit) then TooBig
        else Fits((p.value * 10 + DigitValue(c)) % TWO_64)
  {
    if s == [] {
      assert [c][1..] == [] && s + [c] == [c];
    } else {
      assert (s + [c])[1..] == s[1..] + [c];
      if value < threshold {
        ScanSnoc(s[1..], c, (value * 10 + DigitValue(s[0])) % TWO_64, threshold, lastDigit);
      }
    }
  }

  lemma {:induction false} DecimalPrefix(n: nat, threshold: nat)
    requires 0 < threshold && 10 * threshold <= TWO_64
    ensures AllDigits(Decimal(n))
    ensures Prefix(Decimal(n), 0, threshold) == if n / 10 < threshold then Some(n) else None
  {
    if n < 10 {
      assert Decimal(n)[1..] == [];
    } else {
      DecimalPrefix(n / 10, threshold);
      PrefixSnoc(Decimal(n / 10), DigitChar(n % 10), 0, threshold);
    }
  }

  /** The largest magnitude that `decodeNumber` sets out to accept is `max`; these are the ones it does accept. */
  predicate Accepted(n: nat, max: nat) {
    n / 10 < max / 10 || (n / 100 < max / 10 && n % 10 <= max % 10)
  }

  lemma ScanDecimal(n: nat, max: nat)
    requires 10 <= max < TWO_64
    ensures ScanInteger(Decimal(n), 0, max / 10, max % 10) == if Accepted(n, max) then Fits(n % TWO_64) else TooBig
  {
    var threshold := max / 10;
    if n < 10 {
      assert Decimal(n)[1..] == [];
    } else {
      DecimalPrefix(n / 10, threshold);
      ScanSnoc(Decimal(n / 10), DigitChar(n % 10), 0, threshold, max % 10);
    }
  }

  lemma IntegerLooksNoDouble(n: int)
    ensures !LooksDouble(IntegerText(n))
    ensures IntegerText(n) != [] && (IntegerText(n)[0] == '-' <==> n < 0)
    ensures n < 0 ==> IntegerText(n)[1..] == Decimal(-n)
  {
    DecimalDenotes(if n < 0 then -n else n);
  }

  function Magnitude(n: int): nat {
    if n < 0 then -n else n
  }

  /** What `decodeNumber` makes of the decimal notation of any integer. */
  lemma DecodeInteger(cfg: Config, n: int)
    ensures DecodeNumber(cfg, IntegerText(n)) ==
      if Accepted(Magnitude(n), MaxInteger(n < 0)) then Good(IntegerValue(n < 0, Magnitude(n) % TWO_64))
      else DecodeDouble(cfg, IntegerText(n))
  {
    IntegerLooksNoDouble(n);
    ScanDecimal(Magnitude(n), MaxInteger(n < 0));
  }

  predicate Represents(v: Value, n: int) {
    (v.Int? && v.n == n) || (v.UInt? && v.u == n)
  }

  /**
   `decodeNumber` yields the integer that is written exactly when that integer has 64 bits.
   Beyond, it falls back on a double, unless the last-digit test overlooks the overflow.
   */
  lemma DecodeNumberIsExact(cfg: Config, n: int)
    ensures
      var d := DecodeNumber(cfg, IntegerText(n));
      && (d.Good? && Represents(d.value, n) <==> -TWO_63 <= n < TWO_64)
      && (-TWO_63 <= n < TWO_64 ==> d == Good(Retag(n)))
  {
    DecodeInteger(cfg, n);
    var m, max := Magnitude(n), MaxInteger(n < 0);
    if m <= max {
      AcceptsUpTo(m, max);
      assert m % TWO_64 == m;
    } else {
      WrapsBeyond(m);
    }
  }

  lemma AcceptsUpTo(m: nat, max: nat)
    requires m <= max
    ensures Accepted(m, max) || max < 10
  {
    if m / 10 == max / 10 {
      assert m % 10 <= max % 10;
    }
  }

  lemma WrapsBeyond(m: nat)
    ensures m >= TWO_64 ==> m % TWO_64 != m
  {
  }

  /** An overflow that the last-digit test overlooks. */
  lemma OverlookedOverflow(cfg: Config, n: nat)
    requires n == 99999999999999999990
    ensures DecodeNumber(cfg, IntegerText(n)) == Good(UInt(7766279631452241910))
  {
    var d := DecodeNumber(cfg, IntegerText(n));
    assert d == Good(IntegerValue(false, n % TWO_64)) by {
      DecodeInteger(cfg, n);
      Overlooked(n);
    }
    Wraps(n, 5, 7766279631452241910);
  }

  lemma Overlooked(n: nat)
    requires n == 99999999999999999990
    ensures Accepted(n, MaxInteger(false))
  {
    assert n / 100 == 999999999999999999;
  }

  lemma Wraps(n: nat, q: nat, r: nat)
    requires n == q * TWO_64 + r && r < TWO_64
    ensures n % TWO_64 == r
  {
  }

  // ---------- Number tokens ----------

  /** The next character, if any, is no part of a number. */
  predicate NumberEnds(s: string) {
    AfterNumber(s) == s
  }

  lemma {:induction false} AfterDigits(digits: string, rest: string)
    requires AllDigits(digits) && NumberEnds(rest)
    ensures AfterNumber(digits + rest) == rest
  {
    if digits == [] {
      assert digits + rest == rest;
    } else {
      assert (digits + rest)[1..] == digits[1..] + rest;
      AfterDigits(digits[1..], rest);
    }
  }

  /** `token` is the next token of `s`, and `kind` is what the reader takes it for. */
  predicate Reads(s: string, kind: Kind, token: string) {
    var t := SkipSpaces(s);
    token <= t && ReadToken(s) == (Token(kind, token, |t|), t[|token|..])
  }

  function After(s: string, token: string): string
    requires token <= SkipSpaces(s)
  {
    SkipSpaces(s)[|token|..]
  }

  /** Comments being allowed or not makes no difference where there is none. */
  lemma ReadsNoComment(cfg: Config, s: string, kind: Kind, token: string)
    requires Reads(s, kind, token) && kind != CommentToken
    ensures NextToken(cfg, s) == ReadPastComments(s) == ReadToken(s)
  {
  }

  lemma ReadsClassified(s: string, kind: Kind, token: string)
    requires token != [] && token <= SkipSpaces(s)
    requires Classify(token[0], SkipSpaces(s)[1..]) == (kind, After(s, token))
    ensures Reads(s, kind, token)
  {
    var t := SkipSpaces(s);
    assert t[0] == token[0];
    assert t[..|token|] == token;
  }

  lemma IntegerTail(n: int)
    ensures IntegerText(n) != [] && AllDigits(IntegerText(n)[1..])
    ensures IsDigit(IntegerText(n)[0]) || IntegerText(n)[0] == '-'
  {
    DecimalDenotes(Magnitude(n));
    if n < 0 { assert IntegerText(n)[1..] == Decimal(-n); }
  }

  lemma ReadsNumber(s: string, text: string)
    requires text != [] && AllDigits(text[1..]) && (IsDigit(text[0]) || text[0] == '-')
    requires text <= SkipSpaces(s) && NumberEnds(After(s, text))
    ensures Reads(s, NumberToken, text)
  {
    var t, rest := SkipSpaces(s), After(s, text);
    assert t == text + rest;
    assert t[1..] == text[1..] + rest;
    AfterDigits(text[1..], rest);
    ReadsClassified(s, NumberToken, text);
  }

  // ---------- String tokens ----------

  lemma BodySkips(c: char, more: string)
    requires c != '\"' && c != '\\'
    ensures StringBody([c] + more) == StringBody(more)
  {
    assert ([c] + more)[1..] == more;
  }

  lemma HexDigitIsPlain(d: nat)
    requires d < 16
    ensures HexDigit(d) != '\"' && HexDigit(d) != '\\'
  {
  }

  lemma EscapeEnds(c: char, more: string)
    ensures StringBody(Escape(c) + more) == StringBody(more)
  {
    var s := Escape(c) + more;
    if c in {'\"', '\\', BACKSPACE, FORM_FEED, '\n', '\r', '\t'} {
      assert s[2..] == more;
    } else if IsControl(c) {
      ControlEnds(HexDigit(c as int / 16), HexDigit(c as int % 16), more);
      HexDigitIsPlain(c as int / 16);
      HexDigitIsPlain(c as int % 16);
      assert s == "\\u00" + [HexDigit(c as int / 16), HexDigit(c as int % 16)] + more;
    } else {
      assert s[1..] == more;
    }
  }

  lemma ControlEnds(hi: char, lo: char, more: string)
    requires hi != '\"' && hi != '\\' && lo != '\"' && lo != '\\'
    ensures StringBody("\\u00" + [hi, lo] + more) == StringBody(more)
  {
    var s := "\\u00" + [hi, lo] + more;
    BodySkips(lo, more);
    BodySkips(hi, [lo] + more);
    BodySkips('0', [hi] + ([lo] + more));
    BodySkips('0', ['0'] + ([hi] + ([lo] + more)));
    assert s[2..] == ['0'] + (['0'] + ([hi] + ([lo] + more)));
  }

  lemma {:induction false} QuoteEndsString(text: string, rest: string)
    ensures StringBody(EscapeAll(text) + "\"" + rest) == (true, rest)
  {
    if text == [] {
      assert (EscapeAll(text) + "\"" + rest)[1..] == rest;
    } else {
      var more := EscapeAll(text[1..]) + "\"" + rest;
      assert EscapeAll(text) + "\"" + rest == Escape(text[0]) + more;
      EscapeEnds(text[0], more);
      QuoteEndsString(text[1..], rest);
    }
  }

  lemma ReadsString(s: string, text: string)
    requires Quoted(text) <= SkipSpaces(s)
    ensures Reads(s, StringToken, Quoted(text))
  {
    var t, rest := SkipSpaces(s), After(s, Quoted(text));
    assert t == Quoted(text) + rest;
    assert t[1..] == EscapeAll(text) + "\"" + rest;
    QuoteEndsString(text, rest);
    ReadsClassified(s, StringToken, Quoted(text));
  }

  lemma HexDigitValue(d: nat)
    requires d < 16
    ensures HexValue(HexDigit(d)) == Some(d)
  {
  }

  lemma ControlDecodes(c: char, more: string)
    requires IsControl(c)
    ensures CodePoint("00" + [HexDigit(c as int / 16), HexDigit(c as int % 16)] + more) == Good((c as int, 4))
    ensures Utf8(c as int) == [c]
  {
    var s := "00" + [HexDigit(c as int / 16), HexDigit(c as int % 16)] + more;
    HexDigitValue(0);
    HexDigitValue(c as int / 16);
    HexDigitValue(c as int % 16);
    assert Hex4(s) == Good(c as int);
  }

  lemma EscapeDecodes(c: char, more: string)
    ensures DecodeBody(Escape(c) + more) == Prepend([c], DecodeBody(more))
  {
    var s := Escape(c) + more;
    if c in {'\"', '\\', BACKSPACE, FORM_FEED, '\n', '\r', '\t'} {
      assert s[2..] == more;
      assert SimpleEscape(s[1]) == Some(c);
    } else if IsControl(c) {
      var hi, lo := HexDigit(c as int / 16), HexDigit(c as int % 16);
      assert s[2..] == "00" + [hi, lo] + more;
      ControlDecodes(c, more);
      assert s[6..] == more;
    } else {
      assert s[1..] == more;
    }
  }

  lemma {:induction false} EscapedDecodes(text: string)
    ensures DecodeBody(EscapeAll(text)) == Good(text)
  {
    if text != [] {
      EscapeDecodes(text[0], EscapeAll(text[1..]));
      EscapedDecodes(text[1..]);
      assert text == [text[0]] + text[1..];
    }
  }

  lemma {:induction false} NulFreeIsCString(s: string)
    requires NulFree(s)
    ensures CString(s) == s
  {
    if s != [] {
      assert NulFree(s[1..]) by { assert forall i :: 0 <= i < |s| - 1 ==> s[1..][i] == s[i + 1]; }
      NulFreeIsCString(s[1..]);
      assert s == [s[0]] + s[1..];
    }
  }

  lemma QuotedDecodes(text: string)
    ensures DecodeString(Quoted(text)) == Good(text)
  {
    EscapedDecodes(text);
    assert Quoted(text)[1..|Quoted(text)| - 1] == EscapeAll(text);
  }

  // ---------- The other tokens ----------

  function PunctuationKind(token: string): Option<Kind> {
    if token == "[" then Some(ArrayBegin)
    else if token == "]" then Some(ArrayEnd)
    else if token == "{" then Some(ObjectBegin)
    else if token == "}" then Some(ObjectEnd)
    else if token == "," then Some(ArraySeparator)
    else if token == ":" then Some(MemberSeparator)
    else None
  }

  lemma ReadsPunctuation(s: string, token: string)
    requires PunctuationKind(token).Some? && token <= SkipSpaces(s)
    ensures Reads(s, PunctuationKind(token).value, token)
  {
    ReadsClassified(s, PunctuationKind(token).value, token);
  }

  lemma PunctuationFirst(s: string, token: string, more: seq<string>)
    requires PunctuationKind(token).Some? && Spells(s, [token] + more)
    ensures Reads(s, PunctuationKind(token).value, token) && Spells(After(s, token), more)
  {
    assert ([token] + more)[1..] == more;
    ReadsPunctuation(s, token);
  }

  function WordKind(token: string): Option<Kind> {
    if token == "true" then Some(TrueToken)
    else if token == "false" then Some(FalseToken)
    else if token == "null" then Some(NullToken)
    else None
  }

  lemma ReadsWord(s: string, token: string)
    requires WordKind(token).Some? && token <= SkipSpaces(s)
    ensures Reads(s, WordKind(token).value, token)
  {
    var t := SkipSpaces(s);
    assert token[1..] <= t[1..];
    assert t[1..][|token| - 1..] == t[|token|..];
    ReadsClassified(s, WordKind(token).value, token);
  }

  /** Where a value may end: at the end of the document or before a comma or a closing bracket. */
  predicate Closed(tokens: seq<string>) {
    tokens == [] || tokens[0] == "," || tokens[0] == "]" || tokens[0] == "}"
  }

  lemma ClosedEndsNumber(s: string, tokens: seq<string>)
    requires Spells(s, tokens) && Closed(tokens)
    ensures NumberEnds(s)
  {
    if s != [] && !IsSpace(s[0]) {
      assert SkipSpaces(s) == s;
    }
  }

  // ---------- Values ----------

  /** What reading a value from `s` should give. */
  ghost predicate Yields(cfg: Config, s: string, v: Value, rest: string) {
    forall before :: ParseValue(cfg, s, before) == Parsed(true, rest, v, [])
  }

  function ScalarToken(v: Value): string
    requires WellFormed(v) && !v.Array? && !v.Object?
  {
    match v
    case Null => "null"
    case Int(n) => IntegerText(n)
    case UInt(u) => IntegerText(u)
    case String(s) => Quoted(s)
    case Bool(b) => if b then "true" else "false"
  }

  lemma IntegerRoundTrip(cfg: Config, s: string, n: int, more: seq<string>)
    requires -TWO_63 <= n < TWO_64
    requires IntegerText(n) <= SkipSpaces(s)
    requires Spells(After(s, IntegerText(n)), more) && Closed(more)
    ensures Yields(cfg, s, Retag(n), After(s, IntegerText(n)))
  {
    ClosedEndsNumber(After(s, IntegerText(n)), more);
    IntegerTail(n);
    ReadsNumber(s, IntegerText(n));
    DecodeNumberIsExact(cfg, n);
  }

  lemma ScalarRoundTrip(cfg: Config, s: string, v: Value, more: seq<string>)
    requires WellFormed(v) && !v.Array? && !v.Object?
    requires ScalarToken(v) <= SkipSpaces(s)
    requires Spells(After(s, ScalarToken(v)), more) && Closed(more)
    ensures Yields(cfg, s, Norm(v), After(s, ScalarToken(v)))
  {
    match v
    case Null => ReadsWord(s, "null");
    case Bool(b) => ReadsWord(s, ScalarToken(v));
    case String(text) =>
      ReadsString(s, text);
      QuotedDecodes(text);
      NulFreeIsCString(text);
    case Int(n) => IntegerRoundTrip(cfg, s, n, more);
    case UInt(u) => IntegerRoundTrip(cfg, s, u, more);
  }

  lemma SpellsStep(s: string, token: string, x: seq<string>, more: seq<string>)
    requires Spells(s, [token] + x + more)
    ensures token <= SkipSpaces(s) && Spells(After(s, token), x + more)
  {
    assert ([token] + x + more)[1..] == x + more;
  }

  /** Reading back any document that spells a value's tokens. */
  lemma {:induction false} ValueRoundTrip(cfg: Config, fmt: RealFormat, s: string, v: Value, more: seq<string>)
    returns (rest: string)
    requires WellFormed(v) && Closed(more) && Spells(s, Tokens(fmt, v) + more)
    ensures Yields(cfg, s, Norm(v), rest) && Spells(rest, more)
    decreases v, 4
  {
    if v.Array? {
      rest := ArrayRoundTrip(cfg, fmt, s, v.items, more);
    } else if v.Object? {
      rest := ObjectRoundTrip(cfg, fmt, s, v.members, more);
    } else {
      var token := ScalarToken(v);
      assert Tokens(fmt, v) + more == [token] + [] + more;
      SpellsStep(s, token, [], more);
      assert [] + more == more;
      rest := After(s, token);
      ScalarRoundTrip(cfg, s, v, more);
    }
  }

  lemma ArrayRoundTrip(cfg: Config, fmt: RealFormat, s: string, xs: seq<Value>, more: seq<string>)
    returns (rest: string)
    requires WellFormed(Array(xs)) && Spells(s, Tokens(fmt, Array(xs)) + more)
    ensures Yields(cfg, s, Norm(Array(xs)), rest) && Spells(rest, more)
    decreases xs, 3
  {
    var tail := ItemTokens(fmt, xs) + (["]"] + more);
    assert Tokens(fmt, Array(xs)) + more == ["["] + [] + tail;
    SpellsStep(s, "[", [], tail);
    assert [] + tail == tail;
    ReadsPunctuation(s, "[");
    ReadsNoComment(cfg, s, ArrayBegin, "[");
    rest := InsideArray(cfg, fmt, After(s, "["), xs, more);
  }

  lemma InsideArray(cfg: Config, fmt: RealFormat, s: string, xs: seq<Value>, more: seq<string>)
    returns (rest: string)
    requires WellFormed(Array(xs)) && Spells(s, ItemTokens(fmt, xs) + (["]"] + more))
    ensures ParseArray(cfg, s) == Parsed(true, rest, Norm(Array(xs)), []) && Spells(rest, more)
    decreases xs, 2
  {
    SkipSpacesIdempotent(s);
    if xs == [] {
      assert ItemTokens(fmt, xs) + (["]"] + more) == ["]"] + [] + more;
      SpellsStep(s, "]", [], more);
      assert [] + more == more;
      rest := After(s, "]");
    } else {
      FirstIsNoBracket(fmt, s, xs, ["]"] + more);
      rest := ItemsRoundTrip(cfg, fmt, SkipSpaces(s), [], xs, more);
      assert [] + NormItems(xs) == NormItems(xs);
    }
  }

  lemma FirstIsNoBracket(fmt: RealFormat, s: string, xs: seq<Value>, more: seq<string>)
    requires xs != [] && WellFormed(xs[0]) && Spells(s, ItemTokens(fmt, xs) + more)
    ensures SkipSpaces(s) != [] && SkipSpaces(s)[0] != ']'
  {
    var tokens := Tokens(fmt, xs[0]);
    assert (ItemTokens(fmt, xs) + more)[0] == tokens[0];
    match xs[0]
    case Int(n) => IntegerTextVisible(n);
    case UInt(u) => IntegerTextVisible(u);
    case _ =>
  }

  lemma {:induction false} ItemsRoundTrip(cfg: Config, fmt: RealFormat, s: string, done: seq<Value>, xs: seq<Value>, more: seq<string>)
    returns (rest: string)
    requires xs != [] && WellFormed(Array(xs)) && Spells(s, ItemTokens(fmt, xs) + (["]"] + more))
    ensures ParseItems(cfg, s, done) == Parsed(true, rest, Array(done + NormItems(xs)), [])
    ensures Spells(rest, more)
    decreases xs, 1
  {
    var tail := MoreItems(fmt, xs[1..]) + (["]"] + more);
    MoreItemsClosed(fmt, xs[1..], more);
    assert Spells(s, Tokens(fmt, xs[0]) + tail) by {
      assert ItemTokens(fmt, xs) + (["]"] + more) == Tokens(fmt, xs[0]) + tail;
    }
    var next := ValueRoundTrip(cfg, fmt, s, xs[0], tail);
    rest := AfterItemRoundTrip(cfg, fmt, next, done, xs, more);
    assert done + NormItems(xs) == done + [Norm(xs[0])] + NormItems(xs[1..]);
  }

  lemma MoreItemsClosed(fmt: RealFormat, xs: seq<Value>, more: seq<string>)
    ensures Closed(MoreItems(fmt, xs) + (["]"] + more))
  {
  }

  lemma AfterItemRoundTrip(cfg: Config, fmt: RealFormat, s: string, done: seq<Value>, xs: seq<Value>, more: seq<string>)
    returns (rest: string)
    requires xs != [] && WellFormed(Array(xs)) && Spells(s, MoreItems(fmt, xs[1..]) + (["]"] + more))
    ensures
      var done' := done + [Norm(xs[0])];
      ParseItemEnd(cfg, s, done') == Parsed(true, rest, Array(done' + NormItems(xs[1..])), [])
    ensures Spells(rest, more)
    decreases xs, 0
  {
    var done' := done + [Norm(xs[0])];
    if xs[1..] == [] {
      assert MoreItems(fmt, xs[1..]) + (["]"] + more) == ["]"] + more;
      rest := LastItemRoundTrip(cfg, s, done', more);
    } else {
      rest := NextItemRoundTrip(cfg, fmt, s, done', xs[1..], more);
    }
  }

  lemma LastItemRoundTrip(cfg: Config, s: string, done: seq<Value>, more: seq<string>) returns (rest: string)
    requires Spells(s, ["]"] + more)
    ensures ParseItemEnd(cfg, s, done) == Parsed(true, rest, Array(done + []), []) && Spells(rest, more)
  {
    PunctuationFirst(s, "]", more);
    rest := After(s, "]");
    assert done + [] == done;
  }

  lemma NextItemRoundTrip(cfg: Config, fmt: RealFormat, s: string, done: seq<Value>, xs: seq<Value>, more: seq<string>)
    returns (rest: string)
    requires xs != [] && WellFormed(Array(xs)) && Spells(s, MoreItems(fmt, xs) + (["]"] + more))
    ensures ParseItemEnd(cfg, s, done) == Parsed(true, rest, Array(done + NormItems(xs)), []) && Spells(rest, more)
    decreases xs, 3
  {
    var next := ItemTokens(fmt, xs) + (["]"] + more);
    assert MoreItems(fmt, xs) + (["]"] + more) == [","] + next;
    CommaGoesOn(cfg, s, done, next);
    rest := ItemsRoundTrip(cfg, fmt, After(s, ","), done, xs, more);
  }

  lemma CommaGoesOn(cfg: Config, s: string, done: seq<Value>, next: seq<string>)
    requires Spells(s, [","] + next)
    ensures "," <= SkipSpaces(s) && Spells(After(s, ","), next)
    ensures ParseItemEnd(cfg, s, done) == ParseItems(cfg, After(s, ","), done)
  {
    PunctuationFirst(s, ",", next);
  }

  // ---------- Objects ----------

  lemma {:induction false} LargestIsAppended(ms: seq<Member>, name: string, v: Value)
    requires forall i :: 0 <= i < |ms| ==> StringLess(ms[i].name, name)
    ensures SetMember(ms, name, v) == ms + [Member(name, v)]
  {
    if ms != [] {
      assert forall i :: 0 <= i < |ms| - 1 ==> ms[1..][i] == ms[i + 1];
      LargestIsAppended(ms[1..], name, v);
      assert ms == [ms[0]] + ms[1..];
    }
  }

  lemma ObjectRoundTrip(cfg: Config, fmt: RealFormat, s: string, ms: seq<Member>, more: seq<string>)
    returns (rest: string)
    requires WellFormed(Object(ms)) && Spells(s, Tokens(fmt, Object(ms)) + more)
    ensures Yields(cfg, s, Norm(Object(ms)), rest) && Spells(rest, more)
    decreases ms, 3
  {
    var tail := MemberTokens(fmt, ms) + (["}"] + more);
    assert Tokens(fmt, Object(ms)) + more == ["{"] + [] + tail;
    SpellsStep(s, "{", [], tail);
    assert [] + tail == tail;
    ReadsPunctuation(s, "{");
    ReadsNoComment(cfg, s, ObjectBegin, "{");
    rest := InsideObject(cfg, fmt, After(s, "{"), ms, more);
  }

  lemma InsideObject(cfg: Config, fmt: RealFormat, s: string, ms: seq<Member>, more: seq<string>)
    returns (rest: string)
    requires WellFormed(Object(ms)) && Spells(s, MemberTokens(fmt, ms) + (["}"] + more))
    ensures ParseMembers(cfg, s, "", []) == Parsed(true, rest, Norm(Object(ms)), []) && Spells(rest, more)
    decreases ms, 2
  {
    if ms == [] {
      assert MemberTokens(fmt, ms) + (["}"] + more) == ["}"] + [] + more;
      SpellsStep(s, "}", [], more);
      assert [] + more == more;
      ReadsPunctuation(s, "}");
      ReadsNoComment(cfg, s, ObjectEnd, "}");
      rest := After(s, "}");
    } else {
      rest := MembersRoundTrip(cfg, fmt, s, "", [], ms, more);
      assert [] + NormMembers(ms) == NormMembers(ms);
    }
  }

  /** Every name in `done` is before every name in `ms`. */
  predicate Precede(done: seq<Member>, ms: seq<Member>) {
    forall i, j :: 0 <= i < |done| && 0 <= j < |ms| ==> StringLess(done[i].name, ms[j].name)
  }

  lemma {:induction false} MembersRoundTrip(cfg: Config, fmt: RealFormat, s: string, last: string, done: seq<Member>, ms: seq<Member>, more: seq<string>)
    returns (rest: string)
    requires ms != [] && WellFormed(Object(ms)) && Precede(done, ms)
    requires Spells(s, MemberTokens(fmt, ms) + (["}"] + more))
    ensures ParseMembers(cfg, s, last, done) == Parsed(true, rest, Object(done + NormMembers(ms)), [])
    ensures Spells(rest, more)
    decreases ms, 1
  {
    var m, tail := ms[0], MoreMembers(fmt, ms[1..]) + (["}"] + more);
    TailSeparates(fmt, ms[1..], more);
    assert Spells(s, MemberToken(fmt, m) + tail) by {
      assert MemberTokens(fmt, ms) + (["}"] + more) == MemberToken(fmt, m) + tail;
    }
    var next := MemberRoundTrip(cfg, fmt, s, last, done, m, tail);
    rest := AfterMemberRoundTrip(cfg, fmt, next, done, ms, more);
    assert done + NormMembers(ms) == done + [NormMember(m)] + NormMembers(ms[1..]);
  }

  lemma TailSeparates(fmt: RealFormat, ms: seq<Member>, more: seq<string>)
    ensures
      var tail := MoreMembers(fmt, ms) + (["}"] + more);
      tail != [] && (tail[0] == "," || tail[0] == "}")
  {
  }

  lemma AfterMemberRoundTrip(cfg: Config, fmt: RealFormat, s: string, done: seq<Member>, ms: seq<Member>, more: seq<string>)
    returns (rest: string)
    requires ms != [] && WellFormed(Object(ms)) && Precede(done, ms)
    requires Spells(s, MoreMembers(fmt, ms[1..]) + (["}"] + more))
    ensures
      AfterMember(cfg, s, ms[0].name, done + [NormMember(ms[0])])
        == Parsed(true, rest, Object(done + [NormMember(ms[0])] + NormMembers(ms[1..])), [])
    ensures Spells(rest, more)
    decreases ms, 0
  {
    var tail, done' := MoreMembers(fmt, ms[1..]) + (["}"] + more), done + [NormMember(ms[0])];
    if ms[1..] == [] {
      assert Spells(s, ["}"] + more) by { assert tail == ["}"] + more; }
      PunctuationFirst(s, "}", more);
      rest := After(s, "}");
      assert done' + [] == done';
    } else {
      var next := MemberTokens(fmt, ms[1..]) + (["}"] + more);
      assert Spells(s, [","] + next) by { assert tail == [","] + next; }
      PunctuationFirst(s, ",", next);
      RestIsWellFormed(done, ms);
      rest := MembersRoundTrip(cfg, fmt, After(s, ","), ms[0].name, done', ms[1..], more);
    }
  }

  lemma RestIsWellFormed(done: seq<Member>, ms: seq<Member>)
    requires ms != [] && WellFormed(Object(ms)) && Precede(done, ms)
    ensures WellFormed(Object(ms[1..])) && Precede(done + [NormMember(ms[0])], ms[1..])
  {
    assert forall i :: 0 <= i < |ms| - 1 ==> ms[1..][i] == ms[i + 1];
  }

  /** What `readObject` does after a member's value, `rest` being what follows it. */
  function AfterMember(cfg: Config, s: string, name: string, ms: seq<Member>): Parsed {
    var (comma, rest) := ReadToken(s);
    if comma.kind == ObjectEnd then Parsed(true, rest, Object(ms), [])
    else ParseMembers(cfg, rest, name, ms)
  }

  /** One member: its name, the colon and its value, up to the comma or brace. */
  lemma MemberRoundTrip(cfg: Config, fmt: RealFormat, s: string, last: string, done: seq<Member>, m: Member, tail: seq<string>)
    returns (next: string)
    requires NulFree(m.name) && WellFormed(m.value) && Precede(done, [m])
    requires Spells(s, MemberToken(fmt, m) + tail) && tail != [] && (tail[0] == "," || tail[0] == "}")
    ensures Spells(next, tail)
    ensures ParseMembers(cfg, s, last, done) == AfterMember(cfg, next, m.name, done + [NormMember(m)])
    decreases m, 0
  {
    var s2 := NameAndColon(cfg, fmt, s, last, done, m, tail);
    next := ValueRoundTrip(cfg, fmt, s2, m.value, tail);
    ParsesMember(cfg, s2, next, m, done, tail);
  }

  lemma NameAndColon(cfg: Config, fmt: RealFormat, s: string, last: string, done: seq<Member>, m: Member, tail: seq<string>)
    returns (next: string)
    requires Spells(s, MemberToken(fmt, m) + tail)
    ensures Spells(next, Tokens(fmt, m.value) + tail)
    ensures ParseMembers(cfg, s, last, done) == ParseMember(cfg, next, m.name, done)
  {
    var more := Tokens(fmt, m.value) + tail;
    assert Spells(s, [Quoted(m.name)] + ([":"] + more)) by {
      assert MemberToken(fmt, m) + tail == [Quoted(m.name)] + ([":"] + more);
    }
    var rest := NameRoundTrip(cfg, s, m.name, last, done, [":"] + more);
    PunctuationFirst(rest, ":", more);
    next := After(rest, ":");
    assert ParseColon(cfg, rest, m.name, done) == ParseMember(cfg, next, m.name, done);
  }

  lemma NameRoundTrip(cfg: Config, s: string, name: string, last: string, done: seq<Member>, more: seq<string>)
    returns (rest: string)
    requires Spells(s, [Quoted(name)] + more)
    ensures Spells(rest, more)
    ensures ParseMembers(cfg, s, last, done) == ParseColon(cfg, rest, name, done)
  {
    assert ([Quoted(name)] + more)[1..] == more;
    rest := After(s, Quoted(name));
    var token := Token(StringToken, Quoted(name), |SkipSpaces(s)|);
    assert ParseMembers(cfg, s, last, done) == ParseNamed(cfg, token, rest, done) by {
      ReadsString(s, name);
      ReadsNoComment(cfg, s, StringToken, Quoted(name));
    }
    QuotedDecodes(name);
  }

  lemma ParsesMember(cfg: Config, s: string, next: string, m: Member, done: seq<Member>, tail: seq<string>)
    requires NulFree(m.name) && Precede(done, [m]) && Yields(cfg, s, Norm(m.value), next)
    requires Spells(next, tail) && tail != [] && (tail[0] == "," || tail[0] == "}")
    ensures ParseMember(cfg, s, m.name, done) == AfterMember(cfg, next, m.name, done + [NormMember(m)])
  {
    NulFreeIsCString(m.name);
    assert [m][0] == m;
    LargestIsAppended(done, m.name, Norm(m.value));
    ReadsPunctuation(next, tail[0]);
  }

  // ---------- The main results ----------

  /** Any spelling of a value's tokens is a document whose parse is that value, without errors. */
  lemma ParserUndoesPrinter(cfg: Config, fmt: RealFormat, document: string, v: Value)
    requires WellFormed(v) && Spells(document, Tokens(fmt, v))
    ensures
      var p := ParseDocument(cfg, document);
      && p.value == Norm(v)
      && (p.ok <==> p.errors == [])
      && (p.ok <==> !cfg.strictRoot || v.Array? || v.Object?)
  {
    assert Tokens(fmt, v) + [] == Tokens(fmt, v);
    var rest := ValueRoundTrip(cfg, fmt, document, v, []);
  }

  /** Both printers, in every layout, are undone by the reader. */
  lemma RoundTrip(cfg: Config, fmt: RealFormat, yaml: bool, v: Value)
    requires WellFormed(v) && VisibleFormat(fmt)
    ensures
      var fast := ParseDocument(cfg, JsonWriter.FastText(fmt, yaml, v) + "\n");
      var styled := ParseDocument(cfg, JsonWriter.StyledValue(fmt, "", "", v) + "\n");
      && fast.value == styled.value == Norm(v)
      && (fast.ok <==> styled.ok) && (fast.ok <==> !cfg.strictRoot || v.Array? || v.Object?)
      && (fast.ok ==> fast.errors == styled.errors == [])
  {
    JsonSpelling.PrintersAgree(fmt, yaml, v);
    ParserUndoesPrinter(cfg, fmt, JsonWriter.FastText(fmt, yaml, v) + "\n", v);
    ParserUndoesPrinter(cfg, fmt, JsonWriter.StyledValue(fmt, "", "", v) + "\n", v);
  }
}
