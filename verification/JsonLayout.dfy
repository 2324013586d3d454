/**
 How the printers lay a value out.  The compact text is the tokens of the value and nothing else.
 The styled text, which is built by looking at the last character written, is the layout that the
 nesting alone prescribes: an element a line, three blanks a level, and short flat arrays in one line.
 */
module JsonLayout {
  import opened JsonValue
  import opened JsonText
  import opened JsonWriter

  // ---------- The compact text ----------

  /** The tokens one after another, a blank following each colon in YAML style. */
  function Concat(yaml: bool, tokens: seq<string>): string {
    if tokens == [] then ""
    else tokens[0] + (if yaml && tokens[0] == ":" then " " else "") + Concat(yaml, tokens[1..])
  }

  /** No double is printed as a colon. */
  ghost predicate NoColonFormat(fmt: RealFormat) {
    forall r :: fmt(r) != ":"
  }

  lemma {:induction false} ConcatAppend(yaml: bool, a: seq<string>, b: seq<string>)
    ensures Concat(yaml, a + b) == Concat(yaml, a) + Concat(yaml, b)
  {
    if a == [] {
      assert a + b == b;
    } else {
      assert (a + b)[1..] == a[1..] + b;
      ConcatAppend(yaml, a[1..], b);
    }
  }

  lemma ConcatOne(yaml: bool, token: string)
    ensures Concat(yaml, [token]) == token + if yaml && token == ":" then " " else ""
  {
    assert [token][1..] == [];
  }

  /** The compact text is the tokens of the value, one after another. */
  lemma {:induction false} CompactIsTokens(fmt: RealFormat, yaml: bool, v: Value)
    requires NoColonFormat(fmt)
    ensures FastText(fmt, yaml, v) == Concat(yaml, Tokens(fmt, v))
    decreases v
  {
    match v
    case Array(xs) =>
      CompactItems(fmt, yaml, xs);
      Enclosed(yaml, "[", ItemTokens(fmt, xs), "]");
    case Object(ms) =>
      CompactMembers(fmt, yaml, ms);
      Enclosed(yaml, "{", MemberTokens(fmt, ms), "}");
    case Int(n) =>
      IntegerTextVisible(n);
      ConcatOne(yaml, IntegerText(n));
    case UInt(u) =>
      IntegerTextVisible(u);
      ConcatOne(yaml, IntegerText(u));
    case Real(r) =>
      assert fmt(r) != ":";
      ConcatOne(yaml, fmt(r));
    case _ => ConcatOne(yaml, Tokens(fmt, v)[0]);
  }

  lemma Enclosed(yaml: bool, open: string, tokens: seq<string>, close: string)
    requires open != ":" && close != ":"
    ensures Concat(yaml, [open] + tokens + [close]) == open + Concat(yaml, tokens) + close
  {
    ConcatAppend(yaml, [open] + tokens, [close]);
    ConcatAppend(yaml, [open], tokens);
    ConcatOne(yaml, open);
    ConcatOne(yaml, close);
  }

  lemma SeparatorIsText(yaml: bool, first: bool)
    ensures Concat(yaml, Separator(first)) == if first then "" else ","
  {
    ConcatOne(yaml, ",");
  }

  lemma {:induction false} CompactItems(fmt: RealFormat, yaml: bool, xs: seq<Value>)
    requires NoColonFormat(fmt)
    ensures FastItems(fmt, yaml, xs) == Concat(yaml, ItemTokens(fmt, xs))
    decreases xs
  {
    if xs != [] {
      var front, last := xs[..|xs| - 1], xs[|xs| - 1];
      CompactItems(fmt, yaml, front);
      CompactIsTokens(fmt, yaml, last);
      ItemTokensLast(fmt, xs);
      SeparatorIsText(yaml, front == []);
      ConcatAppend(yaml, Separator(front == []), Tokens(fmt, last));
      ConcatAppend(yaml, ItemTokens(fmt, front), Separator(front == []) + Tokens(fmt, last));
    }
  }

  lemma {:induction false} CompactMembers(fmt: RealFormat, yaml: bool, ms: seq<Member>)
    requires NoColonFormat(fmt)
    ensures FastMembers(fmt, yaml, ms) == Concat(yaml, MemberTokens(fmt, ms))
    decreases ms
  {
    if ms != [] {
      var front, last := ms[..|ms| - 1], ms[|ms| - 1];
      CompactMembers(fmt, yaml, front);
      CompactMember(fmt, yaml, last);
      MemberTokensLast(fmt, ms);
      SeparatorIsText(yaml, front == []);
      ConcatAppend(yaml, Separator(front == []), MemberToken(fmt, last));
      ConcatAppend(yaml, MemberTokens(fmt, front), Separator(front == []) + MemberToken(fmt, last));
    }
  }

  lemma CompactMember(fmt: RealFormat, yaml: bool, m: Member)
    requires NoColonFormat(fmt)
    ensures Concat(yaml, MemberToken(fmt, m)) == Quoted(m.name) + Colon(yaml) + FastText(fmt, yaml, m.value)
    decreases m
  {
    CompactIsTokens(fmt, yaml, m.value);
    var name := Quoted(m.name);
    ConcatAppend(yaml, [name, ":"], Tokens(fmt, m.value));
    assert Concat(yaml, [name, ":"]) == name + Colon(yaml) by { NameAndColon(yaml, name); }
  }

  lemma NameAndColon(yaml: bool, name: string)
    requires name != ":"
    ensures Concat(yaml, [name, ":"]) == name + Colon(yaml)
  {
    ConcatOne(yaml, ":");
    assert [name, ":"][1..] == [":"];
    assert name + "" == name;
  }

  // ---------- The styled text ----------

  function Blanks(n: nat): string {
    seq(n, _ => ' ')
  }

  function NewLine(level: nat): string {
    "\n" + Blanks(3 * level)
  }

  /** A container with something in it. */
  predicate Full(v: Value) {
    (v.Array? && v.items != []) || (v.Object? && v.members != [])
  }

  /** The elements in one line, between blanks. */
  function OneLine(fmt: RealFormat, xs: seq<Value>): string {
    "[ " + Commas(fmt, xs) + " ]"
  }

  function Commas(fmt: RealFormat, xs: seq<Value>): string {
    if xs == [] then ""
    else Commas(fmt, xs[..|xs| - 1]) + (if |xs| == 1 then "" else ", ") + FastText(fmt, false, xs[|xs| - 1])
  }

  /** Arrays without full containers go in one line if that is shorter than 74 characters and the elements fewer than 25. */
  predicate FitsLine(fmt: RealFormat, xs: seq<Value>) {
    |xs| < 25 && (forall i :: 0 <= i < |xs| ==> !Full(xs[i])) && |OneLine(fmt, xs)| < 74
  }

  /** The layout of a value at a level, its first line being at the cursor. */
  function Layout(fmt: RealFormat, level: nat, v: Value): string
    decreases v
  {
    if !Full(v) then FastText(fmt, false, v)
    else if v.Array? then
      if FitsLine(fmt, v.items) then OneLine(fmt, v.items)
      else "[" + LayoutItems(fmt, level + 1, v.items) + NewLine(level) + "]"
    else "{" + LayoutMembers(fmt, level + 1, v.members) + NewLine(level) + "}"
  }

  function LayoutItems(fmt: RealFormat, level: nat, xs: seq<Value>): string
    decreases xs
  {
    if xs == [] then ""
    else
      LayoutItems(fmt, level, xs[..|xs| - 1]) + (if |xs| == 1 then "" else ",")
      + NewLine(level) + Layout(fmt, level, xs[|xs| - 1])
  }

  function LayoutMembers(fmt: RealFormat, level: nat, ms: seq<Member>): string
    decreases ms
  {
    if ms == [] then ""
    else
      LayoutMembers(fmt, level, ms[..|ms| - 1]) + (if |ms| == 1 then "" else ",")
      + NewLine(level) + LayoutMember(fmt, level, ms[|ms| - 1])
  }

  function LayoutMember(fmt: RealFormat, level: nat, m: Member): string
    decreases m
  {
    Quoted(m.name) + " : " + Layout(fmt, level, m.value)
  }

  /** The text does not end where the printer would take it for indented or for a line just begun. */
  predicate Solid(text: string) {
    text != [] && text[|text| - 1] != ' ' && text[|text| - 1] != '\n'
  }

  ghost predicate SolidFormat(fmt: RealFormat) {
    forall r :: Solid(fmt(r))
  }

  lemma SolidAppend(a: string, b: string)
    requires Solid(b)
    ensures Solid(a + b)
  {
  }

  lemma IntegerIsSolid(n: int)
    ensures Solid(IntegerText(n))
  {
    DecimalDenotes(if n < 0 then -n else n);
    if n < 0 { assert IntegerText(n)[|IntegerText(n)| - 1] == Decimal(-n)[|Decimal(-n)| - 1]; }
  }

  lemma FlatIsSolid(fmt: RealFormat, v: Value)
    requires SolidFormat(fmt) && !Full(v)
    ensures Flat(v) && FlatText(fmt, v) == FastText(fmt, false, v) && Solid(FastText(fmt, false, v))
  {
    match v
    case Int(n) => IntegerIsSolid(n);
    case UInt(u) => IntegerIsSolid(u);
    case Real(r) => assert Solid(fmt(r));
    case _ =>
  }

  // The one-line layout and its length.

  lemma {:induction false} JoinedIsCommas(fmt: RealFormat, xs: seq<Value>)
    requires SolidFormat(fmt) && forall i :: 0 <= i < |xs| ==> !Full(xs[i])
    ensures AllFlat(xs) && Joined(FlatTexts(fmt, xs)) == Commas(fmt, xs)
    ensures |Commas(fmt, xs)| == TotalLength(FlatTexts(fmt, xs)) + (if xs == [] then 0 else (|xs| - 1) * 2)
  {
    if xs != [] {
      var front, last := xs[..|xs| - 1], xs[|xs| - 1];
      JoinedIsCommas(fmt, front);
      FlatIsSolid(fmt, last);
      FlatSnoc(fmt, xs);
      Associate(Joined(FlatTexts(fmt, front)), if |xs| == 1 then "" else ", ", FlatText(fmt, last));
    }
  }

  lemma FlatSnoc(fmt: RealFormat, xs: seq<Value>)
    requires xs != [] && AllFlat(xs[..|xs| - 1]) && Flat(xs[|xs| - 1])
    ensures AllFlat(xs)
    ensures FlatTexts(fmt, xs)[..|xs| - 1] == FlatTexts(fmt, xs[..|xs| - 1])
    ensures FlatTexts(fmt, xs)[|xs| - 1] == FlatText(fmt, xs[|xs| - 1])
  {
    forall i | 0 <= i < |xs| ensures Flat(xs[i]) {
      if i < |xs| - 1 { assert xs[i] == xs[..|xs| - 1][i]; }
    }
  }

  lemma MultilineIsLayout(fmt: RealFormat, xs: seq<Value>)
    requires SolidFormat(fmt) && xs != []
    ensures Multiline(fmt, xs) <==> !FitsLine(fmt, xs)
    ensures !Multiline(fmt, xs) ==> AllFlat(xs) && "[ " + Joined(FlatTexts(fmt, xs)) + " ]" == OneLine(fmt, xs)
  {
    if forall i :: 0 <= i < |xs| ==> !Full(xs[i]) {
      JoinedIsCommas(fmt, xs);
    } else {
      var i :| 0 <= i < |xs| && Full(xs[i]);
      assert !Flat(xs[i]);
    }
  }

  /** Where a value begins: at the start of everything, or behind a blank. */
  predicate AtCursor(document: string, level: nat) {
    if document == "" then level == 0 else document[|document| - 1] == ' '
  }

  lemma IndentIsNewLine(document: string, level: nat)
    requires Solid(document)
    ensures WithIndent(document, Blanks(3 * level)) == document + NewLine(level)
  {
  }

  lemma CursorAfter(document: string, level: nat)
    requires level > 0
    ensures AtCursor(document + NewLine(level), level)
  {
    assert NewLine(level)[|NewLine(level)| - 1] == ' ';
  }

  lemma IndentAtCursor(document: string, level: nat)
    requires AtCursor(document, level)
    ensures WithIndent(document, Blanks(3 * level)) == document
  {
    if document == "" { assert Blanks(0) == ""; }
  }

  lemma NextIndent(level: nat)
    ensures Blanks(3 * level) + INDENT == Blanks(3 * (level + 1))
  {
  }

  /** What the printer adds for a value is its layout. */
  lemma {:induction false} StyledIsLayout(fmt: RealFormat, document: string, level: nat, v: Value)
    requires SolidFormat(fmt) && AtCursor(document, level)
    ensures StyledValue(fmt, document, Blanks(3 * level), v) == document + Layout(fmt, level, v)
    ensures Solid(Layout(fmt, level, v))
    decreases v
  {
    IndentAtCursor(document, level);
    NextIndent(level);
    if !Full(v) {
      FlatIsSolid(fmt, v);
    } else if v.Array? {
      MultilineIsLayout(fmt, v.items);
      if Multiline(fmt, v.items) {
        ItemsAreLayout(fmt, document + "[", level + 1, v.items);
        Closed(document, "[", LayoutItems(fmt, level + 1, v.items), level, "]");
      } else {
        assert document + "[ " + Joined(FlatTexts(fmt, v.items)) + " ]" == document + OneLine(fmt, v.items);
        SolidAppend("[ " + Commas(fmt, v.items), " ]");
      }
    } else {
      MembersAreLayout(fmt, document + "{", level + 1, v.members);
      Closed(document, "{", LayoutMembers(fmt, level + 1, v.members), level, "}");
    }
  }

  /** The closing bracket on its own line. */
  lemma Closed(document: string, open: string, inside: string, level: nat, close: string)
    requires Solid(inside) && Solid(close)
    ensures WithIndent(document + open + inside, Blanks(3 * level)) + close == document + (open + inside + NewLine(level) + close)
    ensures Solid(open + inside + NewLine(level) + close)
  {
    SolidAppend(document + open, inside);
    IndentIsNewLine(document + open + inside, level);
    assert document + open + inside + NewLine(level) + close == document + (open + inside + NewLine(level) + close);
    SolidAppend(open + inside + NewLine(level), close);
  }

  lemma {:induction false} ItemsAreLayout(fmt: RealFormat, document: string, level: nat, xs: seq<Value>)
    requires SolidFormat(fmt) && Solid(document) && level > 0
    ensures StyledItems(fmt, document, Blanks(3 * level), xs) == document + LayoutItems(fmt, level, xs)
    ensures xs != [] ==> Solid(LayoutItems(fmt, level, xs))
    decreases xs
  {
    if xs == [] {
      assert document + "" == document;
    } else {
      var front, last := xs[..|xs| - 1], xs[|xs| - 1];
      var before, comma := LayoutItems(fmt, level, front), if |xs| == 1 then "" else ",";
      ItemsAreLayout(fmt, document, level, front);
      NextLine(document, before, comma, level);
      StyledIsLayout(fmt, document + before + comma + NewLine(level), level, last);
      Regroup(document, before, comma, NewLine(level), Layout(fmt, level, last));
      SolidAppend(before + comma + NewLine(level), Layout(fmt, level, last));
    }
  }

  /** Behind the comma, or behind the opening bracket for the first element. */
  lemma NextLine(document: string, before: string, comma: string, level: nat)
    requires Solid(document) && level > 0 && (if before == "" then comma == "" else comma == ",")
    ensures WithIndent(document + before + comma, Blanks(3 * level)) == document + before + comma + NewLine(level)
    ensures AtCursor(document + before + comma + NewLine(level), level)
  {
    var text := document + before + comma;
    if before == "" { assert text == document; } else { SolidAppend(document + before, comma); }
    IndentIsNewLine(text, level);
    CursorAfter(text, level);
  }

  lemma Regroup(a: string, b: string, c: string, d: string, e: string)
    ensures a + b + c + d + e == a + (b + c + d + e)
  {
  }

  lemma {:induction false} MembersAreLayout(fmt: RealFormat, document: string, level: nat, ms: seq<Member>)
    requires SolidFormat(fmt) && Solid(document) && level > 0
    ensures StyledMembers(fmt, document, Blanks(3 * level), ms) == document + LayoutMembers(fmt, level, ms)
    ensures ms != [] ==> Solid(LayoutMembers(fmt, level, ms))
    decreases ms
  {
    if ms == [] {
      assert document + "" == document;
    } else {
      var front, last := ms[..|ms| - 1], ms[|ms| - 1];
      var before, comma := LayoutMembers(fmt, level, front), if |ms| == 1 then "" else ",";
      MembersAreLayout(fmt, document, level, front);
      NextLine(document, before, comma, level);
      MemberIsLayout(fmt, document + before + comma + NewLine(level), level, last);
      Regroup(document, before, comma, NewLine(level), LayoutMember(fmt, level, last));
      SolidAppend(before + comma + NewLine(level), LayoutMember(fmt, level, last));
    }
  }

  lemma MemberIsLayout(fmt: RealFormat, document: string, level: nat, m: Member)
    requires SolidFormat(fmt)
    ensures StyledValue(fmt, document + Quoted(m.name) + " : ", Blanks(3 * level), m.value) == document + LayoutMember(fmt, level, m)
    ensures Solid(LayoutMember(fmt, level, m))
    decreases m
  {
    var text := document + Quoted(m.name) + " : ";
    assert text[|text| - 1] == ' ';
    StyledIsLayout(fmt, text, level, m.value);
    assert text + Layout(fmt, level, m.value) == document + LayoutMember(fmt, level, m);
    SolidAppend(Quoted(m.name) + " : ", Layout(fmt, level, m.value));
  }

  /** The styled document of a value is its layout. */
  lemma StyledDocumentIsLayout(fmt: RealFormat, v: Value)
    requires SolidFormat(fmt)
    ensures StyledValue(fmt, "", "", v) == Layout(fmt, 0, v)
  {
    assert Blanks(0) == "";
    StyledIsLayout(fmt, "", 0, v);
    assert "" + Layout(fmt, 0, v) == Layout(fmt, 0, v);
  }
}
