/**
 What the strings of a document may look like and what they mean: a body is accepted exactly when
 it is made of plain characters, short escapes, hexadecimal escapes and surrogate pairs, and it is
 decoded to bytes that a UTF-8 decoder reads back as the code points written.
 */
module JsonEscapes {
  import opened Options
  import opened JsonValue
  import opened JsonText
  import opened JsonGrammar
  import opened JsonRoundTrip

  // ---------- UTF-8, read back ----------

  /** The value after `n` continuation bytes of six bits each, and the rest. */
  function Continued(lead: nat, n: nat, s: string): Option<(nat, string)>
    decreases n
  {
    if n == 0 then Some((lead, s))
    else if s == [] || !(0x80 <= s[0] as int < 0xC0) then None
    else Continued(lead * 64 + (s[0] as int - 0x80), n - 1, s[1..])
  }

  /** Section 3 of RFC 3629: a code point has one encoding, the shortest. */
  function Shortest(r: Option<(nat, string)>, least: nat): Option<(nat, string)> {
    if r.Some? && r.value.0 >= least then r else None
  }

  /** The code point at the beginning of a text of bytes, and what follows it. */
  function NextCodePoint(s: string): Option<(nat, string)> {
    if s == [] then None
    else
      var lead := s[0] as int;
      if lead < 0x80 then Some((lead, s[1..]))
      else if 0xC0 <= lead < 0xE0 then Shortest(Continued(lead - 0xC0, 1, s[1..]), 0x80)
      else if 0xE0 <= lead < 0xF0 then Shortest(Continued(lead - 0xE0, 2, s[1..]), 0x800)
      else if 0xF0 <= lead < 0xF8 then Shortest(Continued(lead - 0xF0, 3, s[1..]), 0x10000)
      else None
  }

  lemma ContinuedBy(lead: nat, n: nat, b: nat, more: string)
    requires n > 0 && b < 0x40
    ensures Continued(lead, n, [(0x80 + b) as char] + more) == Continued(lead * 64 + b, n - 1, more)
  {
    assert ([(0x80 + b) as char] + more)[1..] == more;
  }

  lemma TwoBytes(a: nat, b: nat, more: string)
    requires a < 0x20 && b < 0x40 && a * 0x40 + b >= 0x80
    ensures NextCodePoint([(0xC0 + a) as char, (0x80 + b) as char] + more) == Some((a * 0x40 + b, more))
  {
    var s := [(0xC0 + a) as char, (0x80 + b) as char] + more;
    assert s[1..] == [(0x80 + b) as char] + more;
    ContinuedBy(a, 1, b, more);
  }

  lemma ThreeBytes(a: nat, b: nat, c: nat, more: string)
    requires a < 0x10 && b < 0x40 && c < 0x40 && a * 0x1000 + b * 0x40 + c >= 0x800
    ensures NextCodePoint([(0xE0 + a) as char, (0x80 + b) as char, (0x80 + c) as char] + more) == Some((a * 0x1000 + b * 0x40 + c, more))
  {
    var s := [(0xE0 + a) as char, (0x80 + b) as char, (0x80 + c) as char] + more;
    assert s[1..] == [(0x80 + b) as char] + ([(0x80 + c) as char] + more);
    ContinuedBy(a, 2, b, [(0x80 + c) as char] + more);
    ContinuedBy(a * 0x40 + b, 1, c, more);
  }

  lemma FourBytes(a: nat, b: nat, c: nat, d: nat, more: string)
    requires a < 8 && b < 0x40 && c < 0x40 && d < 0x40 && a * 0x40000 + b * 0x1000 + c * 0x40 + d >= 0x10000
    ensures NextCodePoint([(0xF0 + a) as char, (0x80 + b) as char, (0x80 + c) as char, (0x80 + d) as char] + more)
      == Some((a * 0x40000 + b * 0x1000 + c * 0x40 + d, more))
  {
    var s := [(0xF0 + a) as char, (0x80 + b) as char, (0x80 + c) as char, (0x80 + d) as char] + more;
    assert s[1..] == [(0x80 + b) as char] + ([(0x80 + c) as char] + ([(0x80 + d) as char] + more));
    ContinuedBy(a, 3, b, [(0x80 + c) as char] + ([(0x80 + d) as char] + more));
    ContinuedBy(a * 0x40 + b, 2, c, [(0x80 + d) as char] + more);
    ContinuedBy((a * 0x40 + b) * 0x40 + c, 1, d, more);
  }

  /** A number in groups of six bits. */
  lemma Groups(n: nat)
    ensures n == n / 0x40 * 0x40 + n % 0x40
    ensures n == n / 0x1000 * 0x1000 + n / 0x40 % 0x40 * 0x40 + n % 0x40
    ensures n == n / 0x40000 * 0x40000 + n / 0x1000 % 0x40 * 0x1000 + n / 0x40 % 0x40 * 0x40 + n % 0x40
  {
    var a, b := n / 0x40, n / 0x1000;
    assert b == a / 0x40;
    assert n / 0x40000 == b / 0x40;
  }

  /** Every code point up to 0x10FFFF is read back from its bytes. */
  lemma Utf8IsReadBack(cp: nat, more: string)
    requires cp <= 0x10FFFF
    ensures NextCodePoint(Utf8(cp) + more) == Some((cp, more))
  {
    Groups(cp);
    if cp <= 0x7F {
      assert (Utf8(cp) + more)[1..] == more;
    } else if cp <= 0x7FF {
      TwoBytes(cp / 0x40, cp % 0x40, more);
    } else if cp <= 0xFFFF {
      var a, b, c := cp / 0x1000, cp / 0x40 % 0x40, cp % 0x40;
      ThreeBytes(a, b, c, more);
    } else {
      var a, b, c, d := cp / 0x40000, cp / 0x1000 % 0x40, cp / 0x40 % 0x40, cp % 0x40;
      FourBytes(a, b, c, d, more);
    }
  }

  // ---------- Spellings ----------

  /** A hexadecimal digit of this value, `a` to `f` being written in either case. */
  predicate IsDigitFor(c: char, d: nat) {
    if d < 10 then c as int == '0' as int + d
    else d < 16 && (c as int == 'a' as int + (d - 10) || c as int == 'A' as int + (d - 10))
  }

  /** Four hexadecimal digits as they are written, and their values. */
  datatype Hex = Hex(text: string, a: nat, b: nat, c: nat, d: nat) {
    predicate Valid() {
      |text| == 4 && IsDigitFor(text[0], a) && IsDigitFor(text[1], b) && IsDigitFor(text[2], c) && IsDigitFor(text[3], d)
    }

    function Number(): nat {
      a * 0x1000 + b * 0x100 + c * 0x10 + d
    }
  }

  /** One element of a string as a document may write it. */
  datatype Element = Plain(c: char) | Short(c: char, letter: char) | Unicode(hex: Hex) | Pair(high: Hex, low: Hex)

  /** A first half of a surrogate pair does not stand alone, but anything may be its second half. */
  predicate IsElement(e: Element) {
    match e
    case Plain(c) => c != '\"' && c != '\\'
    case Short(c, letter) =>
      || (letter == c && c in {'\"', '\\', '/'})
      || (letter, c as int) in {('b', 8), ('t', 9), ('n', 10), ('f', 12), ('r', 13)}
    case Unicode(hex) => hex.Valid() && !(0xD800 <= hex.Number() < 0xDC00)
    case Pair(high, low) => high.Valid() && low.Valid() && 0xD800 <= high.Number() < 0xDC00
  }

  predicate AreElements(es: seq<Element>) {
    es != [] ==> IsElement(es[0]) && AreElements(es[1..])
  }

  function Written(e: Element): string {
    match e
    case Plain(c) => [c]
    case Short(_, letter) => ['\\', letter]
    case Unicode(hex) => "\\u" + hex.text
    case Pair(high, low) => "\\u" + high.text + ("\\u" + low.text)
  }

  function WrittenAll(es: seq<Element>): string {
    if es == [] then "" else Written(es[0]) + WrittenAll(es[1..])
  }

  /** The code point of a hexadecimal escape; of a second half only the low ten bits count. */
  function Point(e: Element): nat
    requires IsElement(e) && (e.Unicode? || e.Pair?)
  {
    match e
    case Unicode(hex) => hex.Number()
    case Pair(high, low) => 0x10000 + (high.Number() - 0xD800) * 0x400 + low.Number() % 0x400
  }

  /** The text holds these characters, and the UTF-8 encodings of these code points. */
  predicate Means(es: seq<Element>, text: string)
    requires AreElements(es)
  {
    if es == [] then text == ""
    else if es[0].Plain? || es[0].Short? then text != [] && text[0] == es[0].c && Means(es[1..], text[1..])
    else
      var next := NextCodePoint(text);
      next.Some? && next.value.0 == Point(es[0]) && Means(es[1..], next.value.1)
  }

  // ---------- What is written is decoded ----------

  lemma DigitIsValue(c: char, d: nat)
    requires d < 16
    ensures IsDigitFor(c, d) <==> HexValue(c) == Some(d)
  {
  }

  lemma HexIsNumber(hex: Hex, s: string)
    requires hex.Valid() && hex.text <= s
    ensures Hex4(s) == Good(hex.Number())
  {
    DigitIsValue(s[0], hex.a);
    DigitIsValue(s[1], hex.b);
    DigitIsValue(s[2], hex.c);
    DigitIsValue(s[3], hex.d);
  }

  lemma TenBits(n: nat)
    requires 0xD800 <= n < 0xDC00
    ensures n % 0x400 == n - 0xD800
  {
  }

  lemma HalvesMakePoint(s: string, t: string, h: nat, l: nat)
    requires |s| >= 4 && Hex4(s) == Good(h) && 0xD800 <= h <= 0xDBFF
    requires t == s[4..] && |t| >= 6 && t[0] == '\\' && t[1] == 'u' && Hex4(t[2..]) == Good(l)
    ensures CodePoint(s) == Good((0x10000 + h % 0x400 * 0x400 + l % 0x400, 10))
  {
  }

  lemma PairIsPoint(high: Hex, low: Hex, s: string, t: string)
    requires high.Valid() && low.Valid() && 0xD800 <= high.Number() < 0xDC00
    requires high.text <= s && t == s[4..] && |t| >= 6 && t[0] == '\\' && t[1] == 'u' && low.text <= t[2..]
    ensures CodePoint(s) == Good((0x10000 + (high.Number() - 0xD800) * 0x400 + low.Number() % 0x400, 10))
  {
    var h, l, u := high.Number(), low.Number(), t[2..];
    HexIsNumber(high, s);
    HexIsNumber(low, u);
    TenBits(h);
    HalvesMakePoint(s, t, h, l);
  }

  /** Decoding an element: the character, or the bytes of the code point. */
  function Decoding(e: Element): string
    requires IsElement(e)
  {
    if e.Plain? || e.Short? then [e.c] else Utf8(Point(e))
  }

  /** The branch of an escape with a code point. */
  lemma PointDecodes(s: string, cp: nat, n: nat, more: string)
    requires |s| >= 2 + n && s[0] == '\\' && s[1] == 'u' && CodePoint(s[2..]) == Good((cp, n)) && s[2 + n..] == more
    ensures DecodeBody(s) == Prepend(Utf8(cp), DecodeBody(more))
  {
    assert SimpleEscape('u').None?;
  }

  lemma UnicodeDecodes(hex: Hex, more: string)
    requires IsElement(Unicode(hex))
    ensures DecodeBody("\\u" + hex.text + more) == Prepend(Utf8(hex.Number()), DecodeBody(more))
  {
    var s := "\\u" + hex.text + more;
    assert s[2..] == hex.text + more;
    HexIsNumber(hex, s[2..]);
    PointDecodes(s, hex.Number(), 4, more);
  }

  lemma PairDecodes(high: Hex, low: Hex, more: string)
    requires IsElement(Pair(high, low))
    ensures DecodeBody("\\u" + high.text + ("\\u" + low.text) + more) == Prepend(Utf8(Point(Pair(high, low))), DecodeBody(more))
  {
    var s, t := "\\u" + high.text + ("\\u" + low.text) + more, "\\u" + low.text + more;
    assert s[2..] == high.text + t;
    assert t[2..] == low.text + more;
    PairIsPoint(high, low, s[2..], t);
    assert s[2 + 10..] == more;
    PointDecodes(s, Point(Pair(high, low)), 10, more);
  }

  lemma ShortDecodes(c: char, letter: char, more: string)
    requires IsElement(Short(c, letter))
    ensures DecodeBody(['\\', letter] + more) == Prepend([c], DecodeBody(more))
  {
    var s := ['\\', letter] + more;
    assert SimpleEscape(letter) == Some(c);
    assert s[0] == '\\' && s[1] == letter && s[2..] == more;
  }

  lemma ElementDecodes(e: Element, more: string)
    requires IsElement(e)
    ensures DecodeBody(Written(e) + more) == Prepend(Decoding(e), DecodeBody(more))
  {
    match e
    case Plain(c) => assert ([c] + more)[1..] == more;
    case Short(c, letter) => ShortDecodes(c, letter, more);
    case Unicode(hex) => UnicodeDecodes(hex, more);
    case Pair(high, low) => PairDecodes(high, low, more);
  }

  lemma ElementMeans(e: Element, es: seq<Element>, more: string)
    requires IsElement(e) && AreElements(es) && Means(es, more)
    ensures AreElements([e] + es) && Means([e] + es, Decoding(e) + more)
  {
    assert ([e] + es)[1..] == es;
    if e.Plain? || e.Short? {
      assert (Decoding(e) + more)[1..] == more;
    } else {
      Utf8IsReadBack(Point(e), more);
    }
  }

  /** A body, up to its end or a bare quote, spelled by these elements. */
  ghost predicate SpelledBy(body: string, es: seq<Element>, rest: string) {
    AreElements(es) && body == WrittenAll(es) + rest && (rest == [] || rest[0] == '\"')
  }

  /** Whatever the spelling, the body is decoded to the text it means. */
  lemma {:induction false} SpellingDecodes(body: string, es: seq<Element>, rest: string)
    requires SpelledBy(body, es, rest)
    ensures DecodeBody(body).Good? && Means(es, DecodeBody(body).value)
    decreases |es|
  {
    if es == [] {
      assert body == rest;
    } else {
      var e, more := es[0], WrittenAll(es[1..]) + rest;
      assert body == Written(e) + more;
      SpellingDecodes(more, es[1..], rest);
      var text := DecodeBody(more).value;
      assert DecodeBody(body) == Good(Decoding(e) + text) by { ElementDecodes(e, more); }
      assert Means([e] + es[1..], Decoding(e) + text) by { ElementMeans(e, es[1..], text); }
      assert [e] + es[1..] == es;
    }
  }

  // ---------- What is decoded was written ----------

  lemma HexOf(s: string) returns (hex: Hex)
    requires Hex4(s).Good?
    ensures |s| >= 4 && hex.Valid() && hex.text == s[..4] && hex.Number() == Hex4(s).value
  {
    hex := Hex(s[..4], HexValue(s[0]).value, HexValue(s[1]).value, HexValue(s[2]).value, HexValue(s[3]).value);
    DigitIsValue(s[0], hex.a);
    DigitIsValue(s[1], hex.b);
    DigitIsValue(s[2], hex.c);
    DigitIsValue(s[3], hex.d);
  }

  /** What a code point was written with. */
  lemma PointWasWritten(s: string) returns (e: Element, more: string)
    requires |s| >= 2 && s[0] == '\\' && s[1] == 'u' && CodePoint(s[2..]).Good?
    ensures IsElement(e) && s == Written(e) + more && more == s[2 + CodePoint(s[2..]).value.1..]
  {
    var t := s[2..];
    var high := HexOf(t);
    if 0xD800 <= high.Number() <= 0xDBFF {
      e, more := PairWasWritten(s, t, high);
    } else {
      e, more := Unicode(high), t[4..];
      assert s == "\\u" + high.text + more;
    }
  }

  lemma PairWasWritten(s: string, t: string, high: Hex) returns (e: Element, more: string)
    requires |s| >= 2 && s[0] == '\\' && s[1] == 'u' && t == s[2..] && CodePoint(t).Good?
    requires |t| >= 4 && high.Valid() && high.text == t[..4] && high.Number() == Hex4(t).value && 0xD800 <= high.Number() < 0xDC00
    ensures IsElement(e) && s == Written(e) + more && more == s[2 + CodePoint(t).value.1..]
  {
    var u := t[4..];
    var low := HexOf(u[2..]);
    e, more := Pair(high, low), u[6..];
    assert t == high.text + u;
    assert u[2..] == low.text + more;
    assert u == "\\u" + (low.text + more);
    assert s == "\\u" + (high.text + u);
    Regrouped(high.text, low.text, more);
    assert more == s[12..];
  }

  lemma Regrouped(a: string, b: string, more: string)
    ensures "\\u" + (a + ("\\u" + (b + more))) == "\\u" + a + ("\\u" + b) + more
  {
  }

  /** The element at the beginning of a body that is accepted. */
  lemma FirstElement(s: string) returns (e: Element, more: string)
    requires DecodeBody(s).Good? && s != [] && s[0] != '\"'
    ensures IsElement(e) && s == Written(e) + more && DecodeBody(more).Good?
  {
    if s[0] != '\\' {
      e, more := Plain(s[0]), s[1..];
    } else if SimpleEscape(s[1]).Some? {
      e, more := Short(SimpleEscape(s[1]).value, s[1]), s[2..];
    } else {
      e, more := PointWasWritten(s);
    }
  }

  lemma {:induction false} DecodedWasSpelled(body: string) returns (es: seq<Element>, rest: string)
    requires DecodeBody(body).Good?
    ensures SpelledBy(body, es, rest)
    decreases |body|
  {
    if body == [] || body[0] == '\"' {
      es, rest := [], body;
    } else {
      var e, more := FirstElement(body);
      es, rest := DecodedWasSpelled(more);
      assert ([e] + es)[1..] == es;
      assert Written(e) + (WrittenAll(es) + rest) == Written(e) + WrittenAll(es) + rest;
      es := [e] + es;
    }
  }

  /** A body is accepted exactly when it has a spelling, and every spelling it has means the text decoded. */
  lemma DecodesExactly(body: string)
    ensures DecodeBody(body).Good? <==> exists es, rest :: SpelledBy(body, es, rest)
    ensures forall es, rest :: SpelledBy(body, es, rest) ==> Means(es, DecodeBody(body).value)
  {
    if DecodeBody(body).Good? { var es, rest := DecodedWasSpelled(body); }
    forall es, rest | SpelledBy(body, es, rest) ensures DecodeBody(body).Good? && Means(es, DecodeBody(body).value) {
      SpellingDecodes(body, es, rest);
    }
  }

  // ---------- Whole strings ----------

  lemma DigitIsPlain(c: char, d: nat)
    requires IsDigitFor(c, d)
    ensures c != '\"' && c != '\\'
  {
    DigitIsValue(c, d);
  }

  lemma HexSkips(hex: Hex, more: string)
    requires hex.Valid()
    ensures StringBody("\\u" + hex.text + more) == StringBody(more)
  {
    var s, t := "\\u" + hex.text + more, hex.text;
    DigitIsPlain(t[0], hex.a);
    DigitIsPlain(t[1], hex.b);
    DigitIsPlain(t[2], hex.c);
    DigitIsPlain(t[3], hex.d);
    BodySkips(t[3], more);
    BodySkips(t[2], [t[3]] + more);
    BodySkips(t[1], [t[2]] + ([t[3]] + more));
    BodySkips(t[0], [t[1]] + ([t[2]] + ([t[3]] + more)));
    assert s[2..] == [t[0]] + ([t[1]] + ([t[2]] + ([t[3]] + more)));
  }

  lemma ElementEnds(e: Element, more: string)
    requires IsElement(e)
    ensures StringBody(Written(e) + more) == StringBody(more)
  {
    match e
    case Plain(c) => BodySkips(c, more);
    case Short(_, _) => assert (Written(e) + more)[2..] == more;
    case Unicode(hex) => HexSkips(hex, more);
    case Pair(high, low) =>
      HexSkips(low, more);
      HexSkips(high, "\\u" + low.text + more);
      assert Written(e) + more == "\\u" + high.text + ("\\u" + low.text + more);
  }

  lemma {:induction false} QuoteEnds(es: seq<Element>, rest: string)
    requires AreElements(es)
    ensures StringBody(WrittenAll(es) + "\"" + rest) == (true, rest)
  {
    if es == [] {
      assert (WrittenAll(es) + "\"" + rest)[1..] == rest;
    } else {
      var more := WrittenAll(es[1..]) + "\"" + rest;
      assert WrittenAll(es) + "\"" + rest == Written(es[0]) + more;
      ElementEnds(es[0], more);
      QuoteEnds(es[1..], rest);
    }
  }

  /** A string in a document, however spelled, is parsed to the text it means, as far as a C string shows it. */
  lemma SpelledStringParses(cfg: Config, es: seq<Element>, rest: string, before: Value) returns (text: string)
    requires AreElements(es)
    ensures Means(es, text)
    ensures ParseValue(cfg, "\"" + WrittenAll(es) + "\"" + rest, before) == Parsed(true, rest, String(CString(text)), [])
  {
    var token := "\"" + WrittenAll(es) + "\"";
    var s := token + rest;
    assert s[1..] == WrittenAll(es) + "\"" + rest;
    QuoteEnds(es, rest);
    assert SkipSpaces(s) == s;
    assert s[|token|..] == rest;
    ReadsClassified(s, StringToken, token);
    ReadsNoComment(cfg, s, StringToken, token);
    assert token[1..|token| - 1] == WrittenAll(es);
    assert SpelledBy(WrittenAll(es), es, []) by { assert WrittenAll(es) + [] == WrittenAll(es); }
    SpellingDecodes(WrittenAll(es), es, []);
    text := DecodeBody(WrittenAll(es)).value;
  }
}
