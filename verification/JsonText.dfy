/**
 The texts of single tokens, and what it means for a document to spell out a token sequence
 with whitespace in between.
 */
module JsonText {
  import opened JsonValue

  const MAX_INT := 0x7FFF_FFFF
  const TWO_63 := 0x8000_0000_0000_0000
  const TWO_64 := 0x1_0000_0000_0000_0000

  predicate IsSpace(c: char) {
    c == ' ' || c == '\t' || c == '\r' || c == '\n'
  }

  function SkipSpaces(s: string): string {
    if s != [] && IsSpace(s[0]) then SkipSpaces(s[1..]) else s
  }

  // ---------- Numbers ----------

  function DigitChar(d: nat): char
    requires d < 10
  {
    '0' + d as char
  }

  predicate IsDigit(c: char) {
    '0' <= c <= '9'
  }

  /** The decimal notation of a natural number. */
  function Decimal(n: nat): string {
    if n < 10 then [DigitChar(n)] else Decimal(n / 10) + [DigitChar(n % 10)]
  }

  function DigitValue(c: char): nat
    requires IsDigit(c)
  {
    c as int - '0' as int
  }

  /** The number a digit string denotes. */
  function Numeral(s: string): nat
    requires forall i :: 0 <= i < |s| ==> IsDigit(s[i])
  {
    if s == [] then 0 else 10 * Numeral(s[..|s| - 1]) + DigitValue(s[|s| - 1])
  }

  lemma {:induction false} DecimalDenotes(n: nat)
    ensures Decimal(n) != []
    ensures forall i :: 0 <= i < |Decimal(n)| ==> IsDigit(Decimal(n)[i])
    ensures Numeral(Decimal(n)) == n
  {
    if n < 10 {
      assert Decimal(n)[..0] == [];
    } else {
      DecimalDenotes(n / 10);
      assert Decimal(n)[..|Decimal(n)| - 1] == Decimal(n / 10);
    }
  }

  function IntegerText(n: int): string {
    if n < 0 then "-" + Decimal(-n) else Decimal(n)
  }

  // ---------- Strings ----------

  predicate IsControl(c: char) {
    0 < c as int <= 0x1F
  }

  function HexDigit(d: nat): char
    requires d < 16
  {
    if d < 10 then '0' + d as char else 'A' + (d - 10) as char
  }

  const BACKSPACE := 8 as char
  const FORM_FEED := 12 as char

  function Escape(c: char): string {
    if c == '\"' then "\\\""
    else if c == '\\' then "\\\\"
    else if c == BACKSPACE then "\\b"
    else if c == FORM_FEED then "\\f"
    else if c == '\n' then "\\n"
    else if c == '\r' then "\\r"
    else if c == '\t' then "\\t"
    else if IsControl(c) then "\\u00" + [HexDigit(c as int / 16), HexDigit(c as int % 16)]
    else [c]
  }

  function EscapeAll(s: string): string {
    if s == [] then "" else Escape(s[0]) + EscapeAll(s[1..])
  }

  function Quoted(s: string): string {
    "\"" + EscapeAll(s) + "\""
  }

  // ---------- Token sequences of values ----------

  /** How doubles are printed is left to the platform. */
  type RealFormat = real -> string

  function Tokens(fmt: RealFormat, v: Value): seq<string>
    decreases v
  {
    match v
    case Null => ["null"]
    case Int(n) => [IntegerText(n)]
    case UInt(u) => [IntegerText(u)]
    case Real(r) => [fmt(r)]
    case String(s) => [Quoted(s)]
    case Bool(b) => [if b then "true" else "false"]
    case Array(xs) => ["["] + ItemTokens(fmt, xs) + ["]"]
    case Object(ms) => ["{"] + MemberTokens(fmt, ms) + ["}"]
  }

  function ItemTokens(fmt: RealFormat, xs: seq<Value>): seq<string>
    decreases xs, 1
  {
    if xs == [] then [] else Tokens(fmt, xs[0]) + MoreItems(fmt, xs[1..])
  }

  /** The elements after the first, each with its comma. */
  function MoreItems(fmt: RealFormat, xs: seq<Value>): seq<string>
    decreases xs, 0
  {
    if xs == [] then [] else [","] + Tokens(fmt, xs[0]) + MoreItems(fmt, xs[1..])
  }

  function MemberToken(fmt: RealFormat, m: Member): seq<string>
    decreases m
  {
    [Quoted(m.name), ":"] + Tokens(fmt, m.value)
  }

  function MemberTokens(fmt: RealFormat, ms: seq<Member>): seq<string>
    decreases ms, 1
  {
    if ms == [] then [] else MemberToken(fmt, ms[0]) + MoreMembers(fmt, ms[1..])
  }

  function MoreMembers(fmt: RealFormat, ms: seq<Member>): seq<string>
    decreases ms, 0
  {
    if ms == [] then [] else [","] + MemberToken(fmt, ms[0]) + MoreMembers(fmt, ms[1..])
  }

  lemma {:induction false} MoreItemsSnoc(fmt: RealFormat, xs: seq<Value>, x: Value)
    ensures MoreItems(fmt, xs + [x]) == MoreItems(fmt, xs) + ([","] + Tokens(fmt, x))
    ensures xs != [] ==> ItemTokens(fmt, xs + [x]) == ItemTokens(fmt, xs) + ([","] + Tokens(fmt, x))
    ensures ItemTokens(fmt, [x]) == Tokens(fmt, x)
  {
    assert [x][1..] == [];
    if xs == [] {
      assert xs + [x] == [x];
    } else {
      assert (xs + [x])[1..] == xs[1..] + [x];
      MoreItemsSnoc(fmt, xs[1..], x);
    }
  }

  lemma {:induction false} MoreMembersSnoc(fmt: RealFormat, ms: seq<Member>, m: Member)
    ensures MoreMembers(fmt, ms + [m]) == MoreMembers(fmt, ms) + ([","] + MemberToken(fmt, m))
    ensures ms != [] ==> MemberTokens(fmt, ms + [m]) == MemberTokens(fmt, ms) + ([","] + MemberToken(fmt, m))
    ensures MemberTokens(fmt, [m]) == MemberToken(fmt, m)
  {
    assert [m][1..] == [];
    if ms == [] {
      assert ms + [m] == [m];
    } else {
      assert (ms + [m])[1..] == ms[1..] + [m];
      MoreMembersSnoc(fmt, ms[1..], m);
    }
  }

  /** The comma before an element, unless it is the first. */
  function Separator(first: bool): seq<string> {
    if first then [] else [","]
  }

  lemma ItemTokensLast(fmt: RealFormat, xs: seq<Value>)
    requires xs != []
    ensures
      var front, last := xs[..|xs| - 1], xs[|xs| - 1];
      ItemTokens(fmt, xs) == ItemTokens(fmt, front) + (Separator(front == []) + Tokens(fmt, last))
  {
    var front, last := xs[..|xs| - 1], xs[|xs| - 1];
    assert xs == front + [last];
    MoreItemsSnoc(fmt, front, last);
    if front == [] { assert xs == [last]; }
  }

  lemma MemberTokensLast(fmt: RealFormat, ms: seq<Member>)
    requires ms != []
    ensures
      var front, last := ms[..|ms| - 1], ms[|ms| - 1];
      MemberTokens(fmt, ms) == MemberTokens(fmt, front) + (Separator(front == []) + MemberToken(fmt, last))
  {
    var front, last := ms[..|ms| - 1], ms[|ms| - 1];
    assert ms == front + [last];
    MoreMembersSnoc(fmt, front, last);
    if front == [] { assert ms == [last]; }
  }

  // ---------- Documents that spell out a token sequence ----------

  predicate Spells(s: string, tokens: seq<string>)
    decreases tokens
  {
    var t := SkipSpaces(s);
    if tokens == [] then t == []
    else tokens[0] <= t && Spells(t[|tokens[0]|..], tokens[1..])
  }

  /** A token is not empty and does not begin with a space. */
  predicate Visible(token: string) {
    token != [] && !IsSpace(token[0])
  }

  predicate AllVisible(tokens: seq<string>) {
    forall i :: 0 <= i < |tokens| ==> Visible(tokens[i])
  }

  lemma {:induction false} SkipSpacesConcat(a: string, b: string)
    ensures SkipSpaces(a) != [] ==> SkipSpaces(a + b) == SkipSpaces(a) + b
    ensures SkipSpaces(a) == [] ==> SkipSpaces(a + b) == SkipSpaces(b)
  {
    if a == [] {
      assert a + b == b;
    } else {
      assert (a + b)[1..] == a[1..] + b;
      SkipSpacesConcat(a[1..], b);
    }
  }

  lemma {:induction false} SpellsConcat(a: string, x: seq<string>, b: string, y: seq<string>)
    requires Spells(a, x) && Spells(b, y) && AllVisible(x)
    ensures Spells(a + b, x + y)
    decreases x
  {
    SkipSpacesConcat(a, b);
    if x == [] {
      assert x + y == y;
    } else {
      var t := SkipSpaces(a);
      var n := |x[0]|;
      assert (t + b)[n..] == t[n..] + b;
      assert (x + y)[1..] == x[1..] + y;
      assert (t + b)[..n] == t[..n];
      SpellsConcat(t[n..], x[1..], b, y);
    }
  }

  lemma SpellsOne(token: string)
    requires Visible(token)
    ensures Spells(token, [token])
  {
    assert token[|token|..] == [];
    assert [token][1..] == [];
  }

  lemma {:induction false} SkipSpacesIdempotent(s: string)
    ensures SkipSpaces(SkipSpaces(s)) == SkipSpaces(s)
    ensures SkipSpaces(s) != [] ==> !IsSpace(SkipSpaces(s)[0])
  {
    if s != [] && IsSpace(s[0]) { SkipSpacesIdempotent(s[1..]); }
  }

  // ---------- The tokens of values are visible ----------

  lemma {:induction false} IntegerTextVisible(n: int)
    ensures Visible(IntegerText(n))
    ensures IsDigit(IntegerText(n)[0]) || IntegerText(n)[0] == '-'
  {
    DecimalDenotes(if n < 0 then -n else n);
  }

  ghost predicate VisibleFormat(fmt: RealFormat) {
    forall r :: Visible(fmt(r))
  }

  lemma {:induction false} TokensVisible(fmt: RealFormat, v: Value)
    requires VisibleFormat(fmt)
    ensures AllVisible(Tokens(fmt, v))
    decreases v
  {
    match v
    case Int(n) => IntegerTextVisible(n);
    case UInt(u) => IntegerTextVisible(u);
    case Array(xs) => ItemTokensVisible(fmt, xs);
    case Object(ms) => MemberTokensVisible(fmt, ms);
    case _ =>
  }

  lemma {:induction false} ItemTokensVisible(fmt: RealFormat, xs: seq<Value>)
    requires VisibleFormat(fmt)
    ensures AllVisible(ItemTokens(fmt, xs)) && AllVisible(MoreItems(fmt, xs))
    decreases xs
  {
    if xs != [] {
      TokensVisible(fmt, xs[0]);
      ItemTokensVisible(fmt, xs[1..]);
    }
  }

  lemma {:induction false} MemberTokensVisible(fmt: RealFormat, ms: seq<Member>)
    requires VisibleFormat(fmt)
    ensures AllVisible(MemberTokens(fmt, ms)) && AllVisible(MoreMembers(fmt, ms))
    decreases ms
  {
    if ms != [] {
      TokensVisible(fmt, ms[0].value);
      MemberTokensVisible(fmt, ms[1..]);
    }
  }
}
