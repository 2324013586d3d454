/**
 The printers: integer and string texts, `FastWriter` and `StyledWriter`.
 */
module JsonWriter {
  import opened Options
  import opened JsonValue
  import opened JsonText

  // ---------- Integers ----------

  /** `uintToStringBufferSize` */
  const BUFFER_SIZE := 3 * 8 + 1

  lemma {:induction false} DecimalLength(n: nat, k: nat, bound: nat)
    requires k > 0 && bound == Power10(k) && n < bound
    ensures |Decimal(n)| <= k
    decreases k
  {
    if n >= 10 {
      assert Power10(k) == 10 * Power10(k - 1);
      DecimalLength(n / 10, k - 1, Power10(k - 1));
    }
  }

  function Power10(k: nat): nat {
    if k == 0 then 1 else 10 * Power10(k - 1)
  }

  lemma PowerOfTwenty()
    ensures Power10(20) >= TWO_64
  {
    assert Power10(4) == 10000;
    assert Power10(8) == 1_0000_0000;
    assert Power10(12) == 1_0000_0000_0000;
    assert Power10(16) == 1_0000_0000_0000_0000;
    assert Power10(20) == 1_0000_0000_0000_0000_0000;
  }

  lemma DigitStep(v: nat, done: string)
    ensures Decimal(v) + done == if v >= 10 then Decimal(v / 10) + ([DigitChar(v % 10)] + done) else [DigitChar(v % 10)] + done
  {
    if v >= 10 {
      assert Decimal(v / 10) + ([DigitChar(v % 10)] + done) == Decimal(v / 10) + [DigitChar(v % 10)] + done;
    }
  }

  /** `uintToString`: writes the digits, last first, downwards from `end`; returns where they begin. */
  method UIntToString(buffer: array<char>, value: nat, end: nat) returns (current: nat)
    requires value < TWO_64 && 21 <= end <= buffer.Length
    modifies buffer
    ensures current < end - 1
    ensures buffer[current..end - 1] == Decimal(value) && buffer[end - 1] == '\0'
    ensures current >= end - 21
  {
    current := end - 1;
    buffer[current] := '\0';
    PowerOfTwenty();
    DecimalLength(value, 20, Power10(20));
    var v := value;
    current := current - 1;
    buffer[current] := DigitChar(v % 10);
    v := v / 10;
    while v != 0
      invariant 0 <= current < end - 1 && buffer[end - 1] == '\0'
      invariant v == 0 ==> buffer[current..end - 1] == Decimal(value)
      invariant v != 0 ==> Decimal(v) + buffer[current..end - 1] == Decimal(value)
      decreases v
    {
      ghost var done := buffer[current..end - 1];
      DigitStep(v, done);
      current := current - 1;
      buffer[current] := DigitChar(v % 10);
      assert buffer[current..end - 1] == [DigitChar(v % 10)] + done;
      v := v / 10;
    }
  }

  /** Two's-complement negation of a 64-bit integer. */
  function Negate64(n: int): int {
    if n == -TWO_63 then n else -n
  }

  /** Conversion of a 64-bit integer to unsigned. */
  function ToUnsigned64(n: int): nat
    requires -TWO_63 <= n < TWO_64
  {
    if n < 0 then n + TWO_64 else n
  }

  /** `valueToString` of a signed or an unsigned 64-bit integer. */
  method ValueToString(value: int) returns (text: string)
    requires -TWO_63 <= value < TWO_64
    ensures text == IntegerText(value)
  {
    var buffer := new char[BUFFER_SIZE];
    var negative := value < 0;
    var magnitude := ToUnsigned64(if negative then Negate64(value) else value);
    var current := UIntToString(buffer, magnitude, BUFFER_SIZE);
    assert buffer[current..BUFFER_SIZE - 1] == Decimal(magnitude);
    text := buffer[current..BUFFER_SIZE - 1];
    if negative { text := "-" + text; }
  }

  // ---------- Strings ----------

  predicate NeedsEscape(c: char) {
    c in {'\"', '\\', BACKSPACE, FORM_FEED, '\n', '\r', '\t'} || IsControl(c)
  }

  lemma {:induction false} NothingToEscape(s: string)
    requires forall i :: 0 <= i < |s| ==> !NeedsEscape(s[i])
    ensures EscapeAll(s) == s
  {
    if s != [] {
      assert forall i :: 0 <= i < |s| - 1 ==> s[1..][i] == s[i + 1];
      NothingToEscape(s[1..]);
      assert s == [s[0]] + s[1..];
    }
  }

  lemma {:induction false} EscapeSnoc(s: string, c: char)
    ensures EscapeAll(s + [c]) == EscapeAll(s) + Escape(c)
  {
    if s == [] {
      assert s + [c] == [c] && [c][1..] == [];
    } else {
      assert (s + [c])[1..] == s[1..] + [c];
      EscapeSnoc(s[1..], c);
    }
  }

  /** The calls of `strpbrk` and `containsControlCharacter`. */
  method IsPlain(value: string) returns (plain: bool)
    ensures plain <==> forall j :: 0 <= j < |value| ==> !NeedsEscape(value[j])
  {
    var i := 0;
    while i < |value|
      invariant 0 <= i <= |value| && forall j :: 0 <= j < i ==> !NeedsEscape(value[j])
    {
      if NeedsEscape(value[i]) { return false; }
      i := i + 1;
    }
    return true;
  }

  lemma EscapeNext(s: string, i: nat, done: string)
    requires i < |s| && done == EscapeAll(s[..i])
    ensures done + Escape(s[i]) == EscapeAll(s[..i + 1])
  {
    EscapeSnoc(s[..i], s[i]);
    assert s[..i + 1] == s[..i] + [s[i]];
  }

  /** `valueToQuotedString`: copies the text when nothing needs escaping, else walks it. */
  method ValueToQuotedString(value: string) returns (result: string)
    ensures result == Quoted(value)
  {
    var plain := IsPlain(value);
    if plain {
      NothingToEscape(value);
      return "\"" + value + "\"";
    }
    result := "\"";
    ghost var done := "";
    var i := 0;
    while i < |value|
      invariant 0 <= i <= |value| && result == "\"" + done && done == EscapeAll(value[..i])
    {
      EscapeNext(value, i, done);
      result, done := result + Escape(value[i]), done + Escape(value[i]);
      i := i + 1;
    }
    assert value[..i] == value;
    result := result + "\"";
  }

  // ---------- The values the printers take ----------

  /** Integers fit their 64-bit types. */
  predicate InRange(v: Value)
    decreases v
  {
    match v
    case Int(n) => -TWO_63 <= n < TWO_63
    case UInt(u) => 0 <= u < TWO_64
    case Array(xs) => forall i :: 0 <= i < |xs| ==> InRange(xs[i])
    case Object(ms) => forall i :: 0 <= i < |ms| ==> InRange(ms[i].value)
    case _ => true
  }

  // ---------- FastWriter ----------

  function Colon(yaml: bool): string {
    if yaml then ": " else ":"
  }

  function FastText(fmt: RealFormat, yaml: bool, v: Value): string
    decreases v, 0
  {
    match v
    case Null => "null"
    case Int(n) => IntegerText(n)
    case UInt(u) => IntegerText(u)
    case Real(r) => fmt(r)
    case String(s) => Quoted(s)
    case Bool(b) => if b then "true" else "false"
    case Array(xs) => "[" + FastItems(fmt, yaml, xs) + "]"
    case Object(ms) => "{" + FastMembers(fmt, yaml, ms) + "}"
  }

  /** Comma-separated, built from the left as the loop does. */
  function FastItems(fmt: RealFormat, yaml: bool, xs: seq<Value>): string
    decreases xs
  {
    if xs == [] then ""
    else FastItems(fmt, yaml, xs[..|xs| - 1]) + FastItem(fmt, yaml, xs[|xs| - 1], |xs| == 1)
  }

  function FastItem(fmt: RealFormat, yaml: bool, v: Value, first: bool): string
    decreases v, 1
  {
    (if first then "" else ",") + FastText(fmt, yaml, v)
  }

  function FastMembers(fmt: RealFormat, yaml: bool, ms: seq<Member>): string
    decreases ms
  {
    if ms == [] then ""
    else FastMembers(fmt, yaml, ms[..|ms| - 1]) + FastMember(fmt, yaml, ms[|ms| - 1], |ms| == 1)
  }

  function FastMember(fmt: RealFormat, yaml: bool, m: Member, first: bool): string
    decreases m
  {
    (if first then "" else ",") + (Quoted(m.name) + Colon(yaml) + FastText(fmt, yaml, m.value))
  }

  lemma Associate(a: string, b: string, c: string)
    ensures a + b + c == a + (b + c)
  {
  }

  lemma AssociateAll(a: string, b: string, c: string, d: string)
    ensures a + b + c + d == a + (b + (c + d))
  {
  }

  lemma FastItemsNext(fmt: RealFormat, yaml: bool, xs: seq<Value>, i: nat)
    requires i < |xs|
    ensures FastItems(fmt, yaml, xs[..i + 1]) == FastItems(fmt, yaml, xs[..i]) + FastItem(fmt, yaml, xs[i], i == 0)
  {
    assert xs[..i + 1][..i] == xs[..i];
  }

  lemma FastMembersNext(fmt: RealFormat, yaml: bool, ms: seq<Member>, i: nat)
    requires i < |ms|
    ensures FastMembers(fmt, yaml, ms[..i + 1]) == FastMembers(fmt, yaml, ms[..i]) + FastMember(fmt, yaml, ms[i], i == 0)
  {
    assert ms[..i + 1][..i] == ms[..i];
  }

  class FastWriter {
    const fmt: RealFormat
    const yaml: bool
    var document: string

    constructor (fmt: RealFormat, yaml: bool)
      ensures this.fmt == fmt && this.yaml == yaml
    {
      this.fmt, this.yaml, document := fmt, yaml, "";
    }

    method Write(root: Value) returns (text: string)
      requires InRange(root)
      modifies this
      ensures text == FastText(fmt, yaml, root) + "\n"
    {
      document := "";
      WriteValue(root);
      document := document + "\n";
      text := document;
    }

    method WriteValue(v: Value)
      requires InRange(v)
      modifies this
      ensures document == old(document) + FastText(fmt, yaml, v)
      decreases v, 0
    {
      match v
      case Null => document := document + "null";
      case Int(n) =>
        var t := ValueToString(n);
        document := document + t;
      case UInt(u) =>
        var t := ValueToString(u);
        document := document + t;
      case Real(r) => document := document + fmt(r);
      case String(s) =>
        var t := ValueToQuotedString(s);
        document := document + t;
      case Bool(b) => document := document + if b then "true" else "false";
      case Array(xs) => WriteArray(xs);
      case Object(ms) => WriteObject(ms);
    }

    method WriteArray(xs: seq<Value>)
      requires forall i :: 0 <= i < |xs| ==> InRange(xs[i])
      modifies this
      ensures document == old(document) + FastText(fmt, yaml, Array(xs))
      decreases xs
    {
      document := document + "[";
      ghost var start := document;
      var i := 0;
      while i < |xs|
        invariant 0 <= i <= |xs| && document == start + FastItems(fmt, yaml, xs[..i])
      {
        ghost var front, text := FastItems(fmt, yaml, xs[..i]), FastItem(fmt, yaml, xs[i], i == 0);
        WriteItem(xs[i], i == 0);
        assert document == start + (front + text) by { Associate(start, front, text); }
        assert FastItems(fmt, yaml, xs[..i + 1]) == front + text by { FastItemsNext(fmt, yaml, xs, i); }
        i := i + 1;
      }
      assert xs[..i] == xs;
      document := document + "]";
      assert document == old(document) + ("[" + FastItems(fmt, yaml, xs) + "]");
    }

    method WriteItem(v: Value, first: bool)
      requires InRange(v)
      modifies this
      ensures document == old(document) + FastItem(fmt, yaml, v, first)
      decreases v, 1
    {
      if !first { document := document + ","; }
      WriteValue(v);
    }

    method WriteMember(m: Member, first: bool)
      requires InRange(m.value)
      modifies this
      ensures document == old(document) + FastMember(fmt, yaml, m, first)
      decreases m
    {
      if !first { document := document + ","; }
      ghost var comma := if first then "" else ",";
      assert document == old(document) + comma;
      var name := ValueToQuotedString(m.name);
      var text := name + Colon(yaml);
      document := document + text;
      WriteValue(m.value);
      AssociateAll(old(document), comma, text, FastText(fmt, yaml, m.value));
    }

    method WriteObject(ms: seq<Member>)
      requires forall i :: 0 <= i < |ms| ==> InRange(ms[i].value)
      modifies this
      ensures document == old(document) + FastText(fmt, yaml, Object(ms))
      decreases ms
    {
      document := document + "{";
      ghost var start := document;
      var i := 0;
      while i < |ms|
        invariant 0 <= i <= |ms| && document == start + FastMembers(fmt, yaml, ms[..i])
      {
        ghost var front, text := FastMembers(fmt, yaml, ms[..i]), FastMember(fmt, yaml, ms[i], i == 0);
        WriteMember(ms[i], i == 0);
        assert document == start + (front + text) by { Associate(start, front, text); }
        assert FastMembers(fmt, yaml, ms[..i + 1]) == front + text by { FastMembersNext(fmt, yaml, ms, i); }
        i := i + 1;
      }
      assert ms[..i] == ms;
      document := document + "}";
      assert document == old(document) + ("{" + FastMembers(fmt, yaml, ms) + "}");
    }
  }

  // ---------- StyledWriter ----------

  const RIGHT_MARGIN := 74
  const INDENT := "   "

  /** A scalar or an empty container: what is printed as one piece of text. */
  predicate Flat(v: Value) {
    !(v.Array? && v.items != []) && !(v.Object? && v.members != [])
  }

  function FlatText(fmt: RealFormat, v: Value): string
    requires Flat(v)
  {
    match v
    case Array(_) => "[]"
    case Object(_) => "{}"
    case _ => FastText(fmt, false, v)
  }

  predicate AllFlat(xs: seq<Value>) {
    forall i :: 0 <= i < |xs| ==> Flat(xs[i])
  }

  function FlatTexts(fmt: RealFormat, xs: seq<Value>): seq<string>
    requires AllFlat(xs)
  {
    seq(|xs|, i requires 0 <= i < |xs| => FlatText(fmt, xs[i]))
  }

  function TotalLength(texts: seq<string>): nat {
    if texts == [] then 0 else TotalLength(texts[..|texts| - 1]) + |texts[|texts| - 1]|
  }

  /** Too many elements, or an element that is itself a non-empty container. */
  predicate TooManyOrNested(xs: seq<Value>) {
    |xs| * 3 >= RIGHT_MARGIN || !AllFlat(xs)
  }

  predicate Multiline(fmt: RealFormat, xs: seq<Value>) {
    TooManyOrNested(xs) || 4 + (|xs| - 1) * 2 + TotalLength(FlatTexts(fmt, xs)) >= RIGHT_MARGIN
  }

  function Joined(texts: seq<string>): string {
    if texts == [] then ""
    else Joined(texts[..|texts| - 1]) + ((if |texts| == 1 then "" else ", ") + texts[|texts| - 1])
  }

  function WithIndent(document: string, indent: string): string {
    if document != [] && document[|document| - 1] == ' ' then document
    else if document != [] && document[|document| - 1] != '\n' then document + "\n" + indent
    else document + indent
  }

  /** The document after printing `v` at the end of `document`. */
  function StyledValue(fmt: RealFormat, document: string, indent: string, v: Value): string
    decreases v
  {
    if Flat(v) then document + FlatText(fmt, v)
    else if v.Array? then
      if Multiline(fmt, v.items) then
        WithIndent(StyledItems(fmt, WithIndent(document, indent) + "[", indent + INDENT, v.items), indent) + "]"
      else
        document + "[ " + Joined(FlatTexts(fmt, v.items)) + " ]"
    else
      WithIndent(StyledMembers(fmt, WithIndent(document, indent) + "{", indent + INDENT, v.members), indent) + "}"
  }

  function StyledItems(fmt: RealFormat, document: string, indent: string, xs: seq<Value>): string
    decreases xs
  {
    if xs == [] then document
    else
      var front := StyledItems(fmt, document, indent, xs[..|xs| - 1]);
      StyledValue(fmt, WithIndent(front + (if |xs| == 1 then "" else ","), indent), indent, xs[|xs| - 1])
  }

  function StyledMembers(fmt: RealFormat, document: string, indent: string, ms: seq<Member>): string
    decreases ms
  {
    if ms == [] then document
    else
      var front, last := StyledMembers(fmt, document, indent, ms[..|ms| - 1]), ms[|ms| - 1];
      StyledValue(fmt, WithIndent(front + (if |ms| == 1 then "" else ","), indent) + Quoted(last.name) + " : ", indent, last.value)
  }

  lemma StyledItemsStep(fmt: RealFormat, document: string, indent: string, xs: seq<Value>, i: nat)
    requires i < |xs|
    ensures
      var front := StyledItems(fmt, document, indent, xs[..i]);
      StyledItems(fmt, document, indent, xs[..i + 1])
      == StyledValue(fmt, WithIndent(front + (if i == 0 then "" else ","), indent), indent, xs[i])
  {
    assert xs[..i + 1][..i] == xs[..i];
  }

  lemma StyledMembersStep(fmt: RealFormat, document: string, indent: string, ms: seq<Member>, i: nat)
    requires i < |ms|
    ensures
      var front := StyledMembers(fmt, document, indent, ms[..i]);
      StyledMembers(fmt, document, indent, ms[..i + 1])
      == StyledValue(fmt, WithIndent(front + (if i == 0 then "" else ","), indent) + Quoted(ms[i].name) + " : ", indent, ms[i].value)
  {
    assert ms[..i + 1][..i] == ms[..i];
  }

  /**
   The styled printer, with the buffer `childValues` that `isMultineArray` fills and nested arrays
   clear and refill.  While `addChildValues` holds, values go to the buffer instead of the document.
   */
  class StyledWriter {
    const fmt: RealFormat
    var document: string
    var childValues: seq<string>
    var addChildValues: bool
    var indentString: string

    constructor (fmt: RealFormat)
      ensures this.fmt == fmt
    {
      this.fmt := fmt;
      document, childValues, addChildValues, indentString := "", [], false, "";
    }

    method Write(root: Value) returns (text: string)
      requires InRange(root)
      modifies this
      ensures text == StyledValue(fmt, "", "", root) + "\n"
    {
      document, addChildValues, indentString := "", false, "";
      WriteValue(root);
      document := document + "\n";
      text := document;
    }

    method PushValue(value: string)
      modifies `document, `childValues
      ensures addChildValues ==> document == old(document) && childValues == old(childValues) + [value]
      ensures !addChildValues ==> document == old(document) + value && childValues == old(childValues)
    {
      if addChildValues {
        childValues := childValues + [value];
      } else {
        document := document + value;
      }
    }

    method WriteIndent()
      modifies `document
      ensures document == WithIndent(old(document), indentString)
    {
      if document != [] {
        var last := document[|document| - 1];
        if last == ' ' { return; }
        if last != '\n' { document := document + "\n"; }
      }
      document := document + indentString;
    }

    method WriteWithIndent(value: string)
      modifies `document
      ensures document == WithIndent(old(document), indentString) + value
    {
      WriteIndent();
      document := document + value;
    }

    method Indent()
      modifies `indentString
      ensures indentString == old(indentString) + INDENT
    {
      indentString := indentString + INDENT;
    }

    method Unindent()
      requires |indentString| >= |INDENT|
      modifies `indentString
      ensures indentString == old(indentString)[..|old(indentString)| - |INDENT|]
    {
      indentString := indentString[..|indentString| - |INDENT|];
    }

    method WriteValue(v: Value)
      requires InRange(v)
      requires addChildValues ==> Flat(v)
      modifies this
      ensures indentString == old(indentString) && addChildValues == old(addChildValues)
      ensures addChildValues ==> document == old(document) && childValues == old(childValues) + [FlatText(fmt, v)]
      ensures !addChildValues ==> document == StyledValue(fmt, old(document), indentString, v)
      decreases v, 1
    {
      match v
      case Null => PushValue("null");
      case Int(n) =>
        var t := ValueToString(n);
        PushValue(t);
      case UInt(u) =>
        var t := ValueToString(u);
        PushValue(t);
      case Real(r) => PushValue(fmt(r));
      case String(s) =>
        var t := ValueToQuotedString(s);
        PushValue(t);
      case Bool(b) => PushValue(if b then "true" else "false");
      case Array(xs) => WriteArrayValue(xs, v);
      case Object(ms) =>
        if ms == [] {
          PushValue("{}");
        } else {
          WriteObjectValue(ms, v);
        }
    }

    method WriteObjectValue(ms: seq<Member>, ghost v: Value)
      requires v == Object(ms) && ms != [] && InRange(v) && !addChildValues
      modifies this
      ensures indentString == old(indentString) && !addChildValues
      ensures document == StyledValue(fmt, old(document), indentString, v)
      decreases v, 0
    {
      ghost var outer := indentString;
      WriteWithIndent("{");
      ghost var start := document;
      Indent();
      var i := 0;
      while i < |ms|
        invariant 0 <= i <= |ms| && !addChildValues && indentString == outer + INDENT
        invariant document == StyledMembers(fmt, start, indentString, ms[..i])
      {
        WriteMember(ms[i], i == 0);
        StyledMembersStep(fmt, start, indentString, ms, i);
        i := i + 1;
      }
      assert ms[..i] == ms;
      Unindent();
      assert indentString == outer;
      WriteWithIndent("}");
    }

    method WriteMember(m: Member, first: bool)
      requires InRange(m.value) && !addChildValues
      modifies this
      ensures indentString == old(indentString) && !addChildValues
      ensures document == StyledValue(
        fmt, WithIndent(old(document) + (if first then "" else ","), indentString) + Quoted(m.name) + " : ", indentString, m.value)
      decreases m
    {
      if !first { document := document + ","; }
      assert document == old(document) + if first then "" else ",";
      var name := ValueToQuotedString(m.name);
      WriteWithIndent(name);
      document := document + " : ";
      WriteValue(m.value);
    }

    method WriteArrayValue(xs: seq<Value>, ghost v: Value)
      requires v == Array(xs) && InRange(v)
      requires addChildValues ==> xs == []
      modifies this
      ensures indentString == old(indentString) && addChildValues == old(addChildValues)
      ensures addChildValues ==> document == old(document) && childValues == old(childValues) + ["[]"]
      ensures !addChildValues ==> document == StyledValue(fmt, old(document), indentString, v)
      decreases v, 0
    {
      if xs == [] {
        PushValue("[]");
        return;
      }
      var multiline := IsMultilineArray(xs);
      if multiline {
        WriteLines(xs);
      } else {
        WriteOneLine(xs);
      }
    }

    method WriteOneLine(xs: seq<Value>)
      requires AllFlat(xs) && childValues == FlatTexts(fmt, xs)
      modifies `document
      ensures document == old(document) + "[ " + Joined(FlatTexts(fmt, xs)) + " ]"
    {
      document := document + "[ ";
      ghost var start := document;
      var i := 0;
      while i < |xs|
        invariant 0 <= i <= |xs| && document == start + Joined(childValues[..i])
      {
        ghost var front, comma, value := Joined(childValues[..i]), if i > 0 then ", " else "", childValues[i];
        if i > 0 { document := document + ", "; }
        assert document == start + front + comma;
        document := document + childValues[i];
        assert document == start + (front + (comma + value)) by { AssociateAll(start, front, comma, value); }
        assert front + (comma + value) == Joined(childValues[..i + 1]) by { assert childValues[..i + 1][..i] == childValues[..i]; }
        i := i + 1;
      }
      assert childValues[..i] == childValues;
      document := document + " ]";
    }

    /** One element on its line: its buffered text, or by recursion. */
    method WriteLine(v: Value, first: bool, buffered: Option<string>)
      requires InRange(v) && !addChildValues
      requires buffered.Some? ==> Flat(v) && buffered.value == FlatText(fmt, v)
      modifies this
      ensures indentString == old(indentString) && !addChildValues
      ensures buffered.Some? ==> childValues == old(childValues)
      ensures document == StyledValue(fmt, WithIndent(old(document) + (if first then "" else ","), indentString), indentString, v)
      decreases v, 2
    {
      if !first { document := document + ","; }
      assert document == old(document) + if first then "" else ",";
      match buffered
      case Some(text) => WriteWithIndent(text);
      case None =>
        WriteIndent();
        WriteValue(v);
    }

    /** One element a line; from the buffer if `isMultineArray` filled it, else by recursion. */
    method WriteLines(xs: seq<Value>)
      requires xs != [] && (forall i :: 0 <= i < |xs| ==> InRange(xs[i])) && !addChildValues
      requires childValues == [] || (AllFlat(xs) && childValues == FlatTexts(fmt, xs))
      modifies this
      ensures indentString == old(indentString) && !addChildValues
      ensures document == WithIndent(StyledItems(fmt, WithIndent(old(document), indentString) + "[", indentString + INDENT, xs), indentString) + "]"
      decreases xs, 0
    {
      ghost var outer, texts := indentString, childValues;
      WriteWithIndent("[");
      ghost var start := document;
      Indent();
      var hasChildValue := childValues != [];
      var i := 0;
      while i < |xs|
        invariant 0 <= i <= |xs| && !addChildValues && indentString == outer + INDENT
        invariant hasChildValue ==> childValues == texts
        invariant document == StyledItems(fmt, start, indentString, xs[..i])
      {
        var buffered: Option<string> := None;
        if hasChildValue {
          buffered := Some(childValues[i]);
          assert buffered.value == FlatText(fmt, xs[i]);
        }
        WriteLine(xs[i], i == 0, buffered);
        assert document == StyledItems(fmt, start, indentString, xs[..i + 1]) by {
          StyledItemsStep(fmt, start, indentString, xs, i);
        }
        i := i + 1;
      }
      assert document == StyledItems(fmt, start, indentString, xs) by { assert xs[..i] == xs; }
      Unindent();
      assert indentString == outer;
      WriteWithIndent("]");
    }

    method IsMultilineArray(xs: seq<Value>) returns (multiline: bool)
      requires xs != [] && (forall i :: 0 <= i < |xs| ==> InRange(xs[i])) && !addChildValues
      modifies this
      ensures document == old(document) && indentString == old(indentString) && !addChildValues
      ensures multiline == Multiline(fmt, xs)
      ensures childValues == if TooManyOrNested(xs) then [] else FlatTexts(fmt, xs)
      decreases xs, 0
    {
      var size := |xs|;
      multiline := size * 3 >= RIGHT_MARGIN;
      childValues := [];
      var i := 0;
      while i < size && !multiline
        invariant 0 <= i <= size
        invariant multiline ==> TooManyOrNested(xs)
        invariant !multiline ==> size * 3 < RIGHT_MARGIN && AllFlat(xs[..i])
      {
        multiline := !Flat(xs[i]);
        assert xs[..i + 1] == xs[..i] + [xs[i]];
        i := i + 1;
      }
      if multiline { return; }
      assert xs[..i] == xs;
      addChildValues := true;
      var lineLength := 4 + (size - 1) * 2;
      i := 0;
      while i < size
        invariant 0 <= i <= size && addChildValues
        invariant document == old(document) && indentString == old(indentString)
        invariant childValues == FlatTexts(fmt, xs)[..i]
        invariant lineLength == 4 + (size - 1) * 2 + TotalLength(FlatTexts(fmt, xs)[..i])
      {
        WriteValue(xs[i]);
        assert FlatTexts(fmt, xs)[..i + 1][..i] == FlatTexts(fmt, xs)[..i];
        lineLength := lineLength + |childValues[i]|;
        i := i + 1;
      }
      addChildValues := false;
      assert FlatTexts(fmt, xs)[..i] == FlatTexts(fmt, xs);
      multiline := lineLength >= RIGHT_MARGIN;
    }
  }
}
