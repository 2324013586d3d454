/**
 The language the reader accepts, as a grammar that generates it: of the documents without comments
 it accepts exactly those that begin with a tree of values, and it builds the value of that tree.
 Arrays and objects are put together as section 2 of RFC 4627 has it, except that a comma may follow
 the last member of an object if that member's name is empty.
 */
module JsonLanguage {
  import opened Options
  import opened JsonValue
  import opened JsonText
  import opened JsonGrammar
  import opened JsonEscapes

  // ---------- Token sequences ----------

  datatype Symbol = Symbol(kind: Kind, text: string)

  /** These are the tokens read first from the text, and this is what is left of it. */
  predicate Lexes(s: string, ts: seq<Symbol>, rest: string)
    decreases |ts|
  {
    if ts == [] then s == rest
    else
      var (token, more) := ReadToken(s);
      token.kind == ts[0].kind && token.text == ts[0].text && Lexes(more, ts[1..], rest)
  }

  /** No token of the text is a comment. */
  predicate NoComments(s: string)
    decreases |s|
  {
    var (token, rest) := ReadToken(s);
    token.kind == EndOfStream || (token.kind != CommentToken && NoComments(rest))
  }

  lemma {:induction false} LexesConcat(s: string, a: seq<Symbol>, b: seq<Symbol>, mid: string, rest: string)
    requires Lexes(s, a, mid) && Lexes(mid, b, rest)
    ensures Lexes(s, a + b, rest)
    decreases |a|
  {
    if a == [] {
      assert a + b == b;
    } else {
      assert (a + b)[1..] == a[1..] + b;
      LexesConcat(ReadToken(s).1, a[1..], b, mid, rest);
    }
  }

  lemma {:induction false} LexesSplit(s: string, a: seq<Symbol>, b: seq<Symbol>, rest: string) returns (mid: string)
    requires Lexes(s, a + b, rest)
    ensures Lexes(s, a, mid) && Lexes(mid, b, rest)
    decreases |a|
  {
    if a == [] {
      assert a + b == b;
      mid := s;
    } else {
      assert (a + b)[1..] == a[1..] + b;
      mid := LexesSplit(ReadToken(s).1, a[1..], b, rest);
    }
  }

  lemma LexesOne(s: string, t: Symbol, rest: string)
    ensures Lexes(s, [t], rest) <==> ReadToken(s).0.kind == t.kind && ReadToken(s).0.text == t.text && ReadToken(s).1 == rest
  {
    assert [t][1..] == [];
  }

  lemma LexesFirst(s: string, t: Symbol, ts: seq<Symbol>, rest: string)
    ensures Lexes(s, [t] + ts, rest) <==> ReadToken(s).0.kind == t.kind && ReadToken(s).0.text == t.text && Lexes(ReadToken(s).1, ts, rest)
  {
    assert ([t] + ts)[1..] == ts;
  }

  /** Without comments all ways to read the next token agree. */
  lemma OneReading(cfg: Config, s: string)
    requires NoComments(s)
    ensures NextToken(cfg, s) == ReadPastComments(s) == ReadToken(s)
    ensures ReadToken(s).0.kind != EndOfStream ==> NoComments(ReadToken(s).1)
  {
  }

  /** The blanks before a token do not matter. */
  lemma Skipped(s: string)
    ensures ReadToken(SkipSpaces(s)) == ReadToken(s)
    ensures NoComments(SkipSpaces(s)) == NoComments(s)
  {
    SkippedTwice(s);
  }

  lemma {:induction false} SkippedTwice(s: string)
    ensures SkipSpaces(SkipSpaces(s)) == SkipSpaces(s)
  {
    if s != [] && IsSpace(s[0]) { SkippedTwice(s[1..]); }
  }

  // ---------- The grammar ----------

  datatype Tree =
    | Leaf(symbol: Symbol)
    | ArrayOf(items: seq<Tree>)
    | ObjectOf(entries: seq<Entry>, trailing: bool)

  /** A member; `name` is the string token. */
  datatype Entry = Entry(name: Symbol, value: Tree)

  /** The symbols of one character. */
  function Mark(kind: Kind): Symbol {
    match kind
    case ArrayBegin => Symbol(kind, "[")
    case ArrayEnd => Symbol(kind, "]")
    case ObjectBegin => Symbol(kind, "{")
    case ObjectEnd => Symbol(kind, "}")
    case ArraySeparator => Symbol(kind, ",")
    case MemberSeparator => Symbol(kind, ":")
    case _ => Symbol(kind, "")
  }

  lemma {:induction false} MarksAreTheirTexts(s: string)
    requires ReadToken(s).0.kind in {ArrayBegin, ArrayEnd, ObjectBegin, ObjectEnd, ArraySeparator, MemberSeparator}
    ensures ReadToken(s).0.text == Mark(ReadToken(s).0.kind).text
  {
    var t := SkipSpaces(s);
    assert t[..1] == [t[0]];
  }

  function Yield(tree: Tree): seq<Symbol>
    decreases tree
  {
    match tree
    case Leaf(symbol) => [symbol]
    case ArrayOf(items) =>
      [Mark(ArrayBegin)] + if items == [] then [Mark(ArrayEnd)] else Yield(items[0]) + YieldItems(items[1..])
    case ObjectOf(entries, trailing) => [Mark(ObjectBegin)] + YieldEntries(entries, trailing)
  }

  /** The elements after the first, each behind its comma, and the closing bracket. */
  function YieldItems(items: seq<Tree>): seq<Symbol>
    decreases items
  {
    if items == [] then [Mark(ArrayEnd)] else [Mark(ArraySeparator)] + (Yield(items[0]) + YieldItems(items[1..]))
  }

  function YieldEntry(e: Entry): seq<Symbol>
    decreases e
  {
    [e.name] + ([Mark(MemberSeparator)] + Yield(e.value))
  }

  function YieldEntries(entries: seq<Entry>, trailing: bool): seq<Symbol>
    decreases entries, 0
  {
    if entries == [] then [Mark(ObjectEnd)] else YieldEntry(entries[0]) + YieldMore(entries[1..], trailing)
  }

  /** What follows a member. */
  function YieldMore(entries: seq<Entry>, trailing: bool): seq<Symbol>
    decreases entries, 1
  {
    if entries == [] && !trailing then [Mark(ObjectEnd)] else [Mark(ArraySeparator)] + YieldEntries(entries, trailing)
  }

  /** A string as documents write them. */
  ghost predicate IsString(text: string) {
    exists es :: SpelledString(text, es)
  }

  ghost predicate SpelledString(text: string, es: seq<Element>) {
    AreElements(es) && text == "\"" + WrittenAll(es) + "\""
  }

  /** A digit or a minus sign, and any characters that numbers are made of. */
  predicate IsNumeral(text: string) {
    && text != [] && ('0' <= text[0] <= '9' || text[0] == '-')
    && forall i :: 1 <= i < |text| ==> '0' <= text[i] <= '9' || text[i] in {'.', 'e', 'E', '+', '-'}
  }

  /** What the single tokens of values look like. */
  ghost predicate IsLexeme(symbol: Symbol) {
    match symbol.kind
    case NumberToken => IsNumeral(symbol.text)
    case StringToken => IsString(symbol.text)
    case TrueToken => symbol.text == "true"
    case FalseToken => symbol.text == "false"
    case NullToken => symbol.text == "null"
    case _ => false
  }

  /** Numbers can be decoded, and a comma follows the last member only if its name is empty. */
  ghost predicate IsTree(cfg: Config, tree: Tree)
    decreases tree
  {
    match tree
    case Leaf(symbol) => IsLexeme(symbol) && (symbol.kind == NumberToken ==> DecodeNumber(cfg, symbol.text).Good?)
    case ArrayOf(items) => AreTrees(cfg, items)
    case ObjectOf(entries, trailing) => AreEntries(cfg, entries) && (trailing ==> entries != [] && LastName(entries) == "")
  }

  ghost predicate AreTrees(cfg: Config, items: seq<Tree>)
    decreases items
  {
    items != [] ==> IsTree(cfg, items[0]) && AreTrees(cfg, items[1..])
  }

  ghost predicate IsEntry(cfg: Config, e: Entry)
    decreases e
  {
    e.name.kind == StringToken && IsString(e.name.text) && IsTree(cfg, e.value)
  }

  ghost predicate AreEntries(cfg: Config, entries: seq<Entry>)
    decreases entries
  {
    entries != [] ==> IsEntry(cfg, entries[0]) && AreEntries(cfg, entries[1..])
  }

  /** What a string means. */
  function TextOf(text: string): string {
    match DecodeString(text)
    case Good(t) => t
    case Bad(_) => ""
  }

  function NameOf(e: Entry): string {
    TextOf(e.name.text)
  }

  function LastName(entries: seq<Entry>): string
    requires entries != []
  {
    NameOf(entries[|entries| - 1])
  }

  /** The value of a tree: of members with the same name the last counts. */
  ghost function Build(cfg: Config, tree: Tree): Value
    requires IsTree(cfg, tree)
    decreases tree
  {
    match tree
    case Leaf(symbol) =>
      (match symbol.kind
       case NumberToken => DecodeNumber(cfg, symbol.text).value
       case StringToken => String(CString(TextOf(symbol.text)))
       case NullToken => Null
       case _ => Bool(symbol.kind == TrueToken))
    case ArrayOf(items) => Array(BuildItems(cfg, items))
    case ObjectOf(entries, _) => Object(BuildEntries(cfg, entries, []))
  }

  ghost function BuildItems(cfg: Config, items: seq<Tree>): seq<Value>
    requires AreTrees(cfg, items)
    decreases items
  {
    if items == [] then [] else [Build(cfg, items[0])] + BuildItems(cfg, items[1..])
  }

  ghost function BuildEntries(cfg: Config, entries: seq<Entry>, done: seq<Member>): seq<Member>
    requires AreEntries(cfg, entries)
    decreases entries
  {
    if entries == [] then done
    else BuildEntries(cfg, entries[1..], BuildEntry(cfg, entries[0], done))
  }

  ghost function BuildEntry(cfg: Config, e: Entry, done: seq<Member>): seq<Member>
    requires IsEntry(cfg, e)
    decreases e
  {
    SetMember(done, CString(NameOf(e)), Build(cfg, e.value))
  }

  // ---------- Single tokens ----------

  lemma StringMeans(text: string, es: seq<Element>)
    requires SpelledString(text, es)
    ensures DecodeString(text).Good? && Means(es, TextOf(text))
  {
    var body := WrittenAll(es);
    assert text[1..|text| - 1] == body;
    assert body + [] == body;
    SpellingDecodes(body, es, []);
  }

  lemma StringDecodes(text: string)
    requires IsString(text)
    ensures DecodeString(text) == Good(TextOf(text))
  {
    var es :| SpelledString(text, es);
    StringMeans(text, es);
  }

  /** A spelled body has no bare quote in it. */
  lemma NoBareQuote(es: seq<Element>, more: string, rest: string)
    requires AreElements(es) && (more == [] || more[0] == '\"')
    requires StringBody(WrittenAll(es) + more + "\"" + rest) == (true, rest)
    ensures more == []
  {
    if more != [] {
      QuoteAhead(WrittenAll(es), more, rest);
      QuoteEnds(es, more[1..] + "\"" + rest);
    }
  }

  lemma QuoteAhead(front: string, more: string, rest: string)
    requires more != [] && more[0] == '\"'
    ensures front + more + "\"" + rest == front + "\"" + (more[1..] + "\"" + rest)
  {
    assert more == "\"" + more[1..];
  }

  /** A body that ends at the first bare quote and can be decoded is spelled to its end. */
  lemma BodyIsSpelled(body: string, rest: string) returns (es: seq<Element>)
    requires StringBody(body + "\"" + rest) == (true, rest) && DecodeBody(body).Good?
    ensures AreElements(es) && body == WrittenAll(es)
  {
    var more;
    es, more := DecodedWasSpelled(body);
    NoBareQuote(es, more, rest);
    assert WrittenAll(es) + [] == WrittenAll(es);
  }

  lemma BodyBefore(s: string, rest: string) returns (body: string)
    requires StringBody(s) == (true, rest)
    ensures s == body + "\"" + rest
  {
    ClosedByQuote(s);
    body := s[..|s| - |rest| - 1];
  }

  lemma StringTokenIsString(s: string)
    requires ReadToken(s).0.kind == StringToken && DecodeString(ReadToken(s).0.text).Good?
    ensures IsString(ReadToken(s).0.text)
  {
    var u, text, rest := SkipSpaces(s)[1..], ReadToken(s).0.text, ReadToken(s).1;
    assert StringBody(u) == (true, rest) && text == ("\"" + u)[..|u| + 1 - |rest|];
    var body := BodyBefore(u, rest);
    assert text == "\"" + body + "\"" && text[1..|text| - 1] == body;
    var es := BodyIsSpelled(body, rest);
    assert SpelledString(text, es);
  }

  lemma {:induction false} ClosedByQuote(s: string)
    requires StringBody(s).0
    ensures
      var n := |s| - |StringBody(s).1| - 1;
      n >= 0 && s[n] == '\"' && s[n + 1..] == StringBody(s).1
    decreases |s|
  {
    if s[0] == '\"' {
    } else if s[0] == '\\' {
      ClosedByQuote(if |s| == 1 then [] else s[2..]);
    } else {
      ClosedByQuote(s[1..]);
    }
  }

  lemma {:induction false} NumberGoesOn(s: string)
    ensures AfterNumber(s) == s[|s| - |AfterNumber(s)|..]
    ensures forall i :: 0 <= i < |s| - |AfterNumber(s)| ==> '0' <= s[i] <= '9' || s[i] in {'.', 'e', 'E', '+', '-'}
  {
    if s != [] && IsNumberChar(s[0]) {
      NumberGoesOn(s[1..]);
      assert forall i :: 1 <= i < |s| - |AfterNumber(s)| ==> s[i] == s[1..][i - 1];
    }
  }

  /** The tokens of values look like that. */
  lemma TokensAreLexemes(s: string)
    requires ReadToken(s).0.kind in {NumberToken, StringToken, TrueToken, FalseToken, NullToken}
    requires ReadToken(s).0.kind == StringToken ==> DecodeString(ReadToken(s).0.text).Good?
    ensures IsLexeme(Symbol(ReadToken(s).0.kind, ReadToken(s).0.text))
  {
    var t, token, rest := SkipSpaces(s), ReadToken(s).0, ReadToken(s).1;
    match token.kind
    case StringToken => StringTokenIsString(s);
    case NumberToken => NumberGoesOn(t[1..]);
    case TrueToken => assert t[..4] == "t" + "rue";
    case FalseToken => assert t[..5] == "f" + "alse";
    case NullToken => assert t[..4] == "n" + "ull";
  }

  // ---------- What the grammar generates is accepted ----------

  lemma LeafParses(cfg: Config, s: string, symbol: Symbol, rest: string, before: Value)
    requires NoComments(s) && IsTree(cfg, Leaf(symbol)) && Lexes(s, [symbol], rest)
    ensures ParseValue(cfg, s, before).ok && NoComments(rest)
    ensures ParseValue(cfg, s, before).rest == rest
    ensures ParseValue(cfg, s, before).value == Build(cfg, Leaf(symbol))
  {
    OneReading(cfg, s);
    LexesOne(s, symbol, rest);
    if symbol.kind == StringToken { StringDecodes(symbol.text); }
  }

  lemma {:induction false} TreeParses(cfg: Config, s: string, tree: Tree, rest: string, before: Value)
    requires NoComments(s) && IsTree(cfg, tree) && Lexes(s, Yield(tree), rest)
    ensures ParseValue(cfg, s, before) == Parsed(true, rest, Build(cfg, tree), []) && NoComments(rest)
    decreases tree, 1
  {
    var more := ReadToken(s).1;
    OneReading(cfg, s);
    match tree
    case Leaf(symbol) => LeafParses(cfg, s, symbol, rest, before);
    case ArrayOf(items) =>
      LexesFirst(s, Mark(ArrayBegin), Inside(items), rest);
      ArrayParses(cfg, more, items, rest);
    case ObjectOf(entries, trailing) =>
      LexesFirst(s, Mark(ObjectBegin), YieldEntries(entries, trailing), rest);
      EntriesParse(cfg, more, "", [], entries, trailing, rest);
  }

  function Inside(items: seq<Tree>): seq<Symbol> {
    if items == [] then [Mark(ArrayEnd)] else Yield(items[0]) + YieldItems(items[1..])
  }

  /** After the opening bracket. */
  lemma ArrayParses(cfg: Config, s: string, items: seq<Tree>, rest: string)
    requires NoComments(s) && AreTrees(cfg, items) && Lexes(s, Inside(items), rest)
    ensures ParseArray(cfg, s) == Parsed(true, rest, Array(BuildItems(cfg, items)), []) && NoComments(rest)
    decreases items, 3
  {
    Skipped(s);
    if items == [] {
      EmptyArrayParses(cfg, s, rest);
    } else {
      var t := SkipSpaces(s);
      FirstIsNoBracket(cfg, s, items[0], YieldItems(items[1..]), rest);
      SameTokens(s, t, Inside(items), rest);
      ItemsParse(cfg, t, [], items, rest);
      assert [] + BuildItems(cfg, items) == BuildItems(cfg, items);
      assert ParseArray(cfg, s) == ParseItems(cfg, t, []);
    }
  }

  lemma EmptyArrayParses(cfg: Config, s: string, rest: string)
    requires NoComments(s) && Lexes(s, [Mark(ArrayEnd)], rest)
    ensures ParseArray(cfg, s) == Parsed(true, rest, Array([]), []) && NoComments(rest)
  {
    LexesOne(s, Mark(ArrayEnd), rest);
    OneReading(cfg, s);
  }

  /** Texts with the same first token have the same tokens. */
  lemma SameTokens(s: string, t: string, ts: seq<Symbol>, rest: string)
    requires ReadToken(s) == ReadToken(t) && ts != []
    ensures Lexes(s, ts, rest) == Lexes(t, ts, rest)
  {
  }

  lemma FirstIsNoBracket(cfg: Config, s: string, tree: Tree, more: seq<Symbol>, rest: string)
    requires IsTree(cfg, tree) && Lexes(s, Yield(tree) + more, rest)
    ensures ReadToken(s).0.kind !in {ArrayEnd, EndOfStream}
    ensures SkipSpaces(s) != [] && SkipSpaces(s)[0] != ']'
  {
    assert (Yield(tree) + more)[0] == Yield(tree)[0];
  }

  lemma {:induction false} ItemsParse(cfg: Config, s: string, done: seq<Value>, items: seq<Tree>, rest: string)
    requires NoComments(s) && items != [] && AreTrees(cfg, items)
    requires Lexes(s, Yield(items[0]) + YieldItems(items[1..]), rest)
    ensures ParseItems(cfg, s, done) == Parsed(true, rest, Array(done + BuildItems(cfg, items)), []) && NoComments(rest)
    decreases items, 2
  {
    var mid := LexesSplit(s, Yield(items[0]), YieldItems(items[1..]), rest);
    var v := Build(cfg, items[0]);
    TreeParses(cfg, s, items[0], mid, Null);
    AfterItem(cfg, s, done, mid, v);
    assert done + ([v] + BuildItems(cfg, items[1..])) == done + [v] + BuildItems(cfg, items[1..]);
    ItemEndParses(cfg, mid, done + [v], items, rest);
  }

  lemma AfterItem(cfg: Config, s: string, done: seq<Value>, end: string, v: Value)
    requires ParseValue(cfg, s, Null) == Parsed(true, end, v, [])
    ensures ParseItems(cfg, s, done) == ParseItemEnd(cfg, end, done + [v])
  {
  }

  /** After the first of these elements. */
  lemma ItemEndParses(cfg: Config, s: string, done: seq<Value>, items: seq<Tree>, rest: string)
    requires NoComments(s) && items != [] && AreTrees(cfg, items) && Lexes(s, YieldItems(items[1..]), rest)
    ensures ParseItemEnd(cfg, s, done) == Parsed(true, rest, Array(done + BuildItems(cfg, items[1..])), []) && NoComments(rest)
    decreases items, 0
  {
    OneReading(cfg, s);
    var others := items[1..];
    if others == [] {
      LexesOne(s, Mark(ArrayEnd), rest);
      assert done + [] == done;
    } else {
      LexesFirst(s, Mark(ArraySeparator), Yield(others[0]) + YieldItems(others[1..]), rest);
      assert ParseItemEnd(cfg, s, done) == ParseItems(cfg, ReadToken(s).1, done);
      ItemsParse(cfg, ReadToken(s).1, done, others, rest);
    }
  }

  /** `last` is the name read last: it is empty where no member may follow the comma. */
  lemma {:induction false} EntriesParse(
    cfg: Config, s: string, last: string, done: seq<Member>, entries: seq<Entry>, trailing: bool, rest: string)
    requires NoComments(s) && AreEntries(cfg, entries)
    requires entries == [] ==> last == ""
    requires trailing && entries != [] ==> LastName(entries) == ""
    requires Lexes(s, YieldEntries(entries, trailing), rest)
    ensures ParseMembers(cfg, s, last, done) == Parsed(true, rest, Object(BuildEntries(cfg, entries, done)), []) && NoComments(rest)
    decreases entries, 1
  {
    OneReading(cfg, s);
    if entries == [] {
      LexesOne(s, Mark(ObjectEnd), rest);
    } else {
      var e := entries[0];
      var end := LexesSplit(s, YieldEntry(e), YieldMore(entries[1..], trailing), rest);
      var name := NameOf(e);
      var done' := BuildEntry(cfg, e, done);
      EntryParses(cfg, s, last, done, e, end);
      MoreParse(cfg, end, name, done', entries, trailing, rest);
    }
  }

  /** One member up to what follows it. */
  lemma EntryParses(cfg: Config, s: string, last: string, done: seq<Member>, e: Entry, end: string)
    requires NoComments(s) && IsEntry(cfg, e)
    requires Lexes(s, YieldEntry(e), end)
    ensures NoComments(end)
    ensures ParseMembers(cfg, s, last, done)
      == ParseMemberEnd(cfg, end, NameOf(e), BuildEntry(cfg, e, done))
    decreases e, 2
  {
    var (token, colon) := ReadToken(s);
    var name := NameOf(e);
    LexesFirst(s, e.name, [Mark(MemberSeparator)] + Yield(e.value), end);
    OneReading(cfg, s);
    StringDecodes(e.name.text);
    assert ParseMembers(cfg, s, last, done) == ParseNamed(cfg, token, colon, done) == ParseColon(cfg, colon, name, done);
    ColonParses(cfg, colon, name, done, e.value, end);
  }

  lemma ColonParses(cfg: Config, s: string, name: string, done: seq<Member>, tree: Tree, end: string)
    requires NoComments(s) && IsTree(cfg, tree) && Lexes(s, [Mark(MemberSeparator)] + Yield(tree), end)
    ensures NoComments(end)
    ensures ParseColon(cfg, s, name, done) == ParseMemberEnd(cfg, end, name, SetMember(done, CString(name), Build(cfg, tree)))
    decreases tree, 2
  {
    OneReading(cfg, s);
    LexesFirst(s, Mark(MemberSeparator), Yield(tree), end);
    var value := ReadToken(s).1;
    assert ParseColon(cfg, s, name, done) == ParseMember(cfg, value, name, done);
    TreeParses(cfg, value, tree, end, MemberOrNull(done, CString(name)));
    AfterValue(cfg, value, name, done, end, Build(cfg, tree));
  }

  lemma AfterValue(cfg: Config, s: string, name: string, ms: seq<Member>, end: string, v: Value)
    requires ParseValue(cfg, s, MemberOrNull(ms, CString(name))) == Parsed(true, end, v, [])
    ensures ParseMember(cfg, s, name, ms) == ParseMemberEnd(cfg, end, name, SetMember(ms, CString(name), v))
  {
  }

  lemma AfterBrace(cfg: Config, s: string, name: string, ms: seq<Member>)
    requires ReadToken(s).0.kind == ObjectEnd
    ensures ParseMemberEnd(cfg, s, name, ms) == Parsed(true, ReadToken(s).1, Object(ms), [])
  {
  }

  lemma AfterComma(cfg: Config, s: string, name: string, ms: seq<Member>)
    requires ReadToken(s).0.kind == ArraySeparator
    ensures ParseMemberEnd(cfg, s, name, ms) == ParseMembers(cfg, ReadToken(s).1, name, ms)
  {
  }

  lemma MoreParse(cfg: Config, s: string, name: string, done: seq<Member>, entries: seq<Entry>, trailing: bool, rest: string)
    requires NoComments(s) && entries != [] && AreEntries(cfg, entries) && name == NameOf(entries[0])
    requires trailing ==> LastName(entries) == ""
    requires Lexes(s, YieldMore(entries[1..], trailing), rest)
    ensures ParseMemberEnd(cfg, s, name, done) == Parsed(true, rest, Object(BuildEntries(cfg, entries[1..], done)), []) && NoComments(rest)
    decreases entries, 0
  {
    OneReading(cfg, s);
    var others := entries[1..];
    if others == [] && !trailing {
      LexesOne(s, Mark(ObjectEnd), rest);
      AfterBrace(cfg, s, name, done);
    } else {
      LexesFirst(s, Mark(ArraySeparator), YieldEntries(others, trailing), rest);
      AfterComma(cfg, s, name, done);
      EntriesParse(cfg, ReadToken(s).1, name, done, others, trailing, rest);
    }
  }

  // ---------- What is accepted is generated ----------

  lemma {:induction false} ParsedHasTree(cfg: Config, s: string, before: Value) returns (tree: Tree)
    requires NoComments(s) && ParseValue(cfg, s, before).ok
    ensures IsTree(cfg, tree) && Lexes(s, Yield(tree), ParseValue(cfg, s, before).rest)
    ensures NoComments(ParseValue(cfg, s, before).rest)
    decreases |s|, 0
  {
    OneReading(cfg, s);
    var (token, more) := ReadToken(s);
    var p := ParseValue(cfg, s, before);
    if token.kind == ObjectBegin {
      MarksAreTheirTexts(s);
      var entries, trailing := MembersHaveEntries(cfg, more, "", []);
      tree := ObjectOf(entries, trailing);
      LexesFirst(s, Mark(ObjectBegin), YieldEntries(entries, trailing), p.rest);
    } else if token.kind == ArrayBegin {
      MarksAreTheirTexts(s);
      var items := ArrayHasItems(cfg, more);
      tree := ArrayOf(items);
      LexesFirst(s, Mark(ArrayBegin), Inside(items), p.rest);
    } else {
      tree := Leaf(Symbol(token.kind, token.text));
      TokensAreLexemes(s);
      LexesOne(s, tree.symbol, p.rest);
    }
  }

  lemma ArrayHasItems(cfg: Config, s: string) returns (items: seq<Tree>)
    requires NoComments(s) && ParseArray(cfg, s).ok
    ensures AreTrees(cfg, items) && NoComments(ParseArray(cfg, s).rest)
    ensures Lexes(s, Inside(items), ParseArray(cfg, s).rest)
    decreases |s|, 2
  {
    Skipped(s);
    SkipSpacesShortens(s);
    var t := SkipSpaces(s);
    if t != [] && t[0] == ']' {
      items := [];
      MarksAreTheirTexts(s);
      LexesOne(s, Mark(ArrayEnd), t[1..]);
      OneReading(cfg, s);
    } else {
      items := ItemsHaveTrees(cfg, t, []);
      SameTokens(s, t, Yield(items[0]) + YieldItems(items[1..]), ParseArray(cfg, s).rest);
    }
  }

  lemma {:induction false} ItemsHaveTrees(cfg: Config, s: string, done: seq<Value>) returns (items: seq<Tree>)
    requires NoComments(s) && ParseItems(cfg, s, done).ok
    ensures items != [] && AreTrees(cfg, items) && NoComments(ParseItems(cfg, s, done).rest)
    ensures Lexes(s, Yield(items[0]) + YieldItems(items[1..]), ParseItems(cfg, s, done).rest)
    decreases |s|, 1
  {
    var v, rest := ParseValue(cfg, s, Null), ParseItems(cfg, s, done).rest;
    var tree := ParsedHasTree(cfg, s, Null);
    OneReading(cfg, v.rest);
    MarksAreTheirTexts(v.rest);
    var (token, more) := ReadToken(v.rest);
    var others: seq<Tree> := [];
    if token.kind == ArrayEnd {
      LexesOne(v.rest, Mark(ArrayEnd), rest);
    } else {
      others := ItemsHaveTrees(cfg, more, done + [v.value]);
      LexesFirst(v.rest, Mark(ArraySeparator), Yield(others[0]) + YieldItems(others[1..]), rest);
    }
    LexesConcat(s, Yield(tree), YieldItems(others), v.rest, rest);
    items := [tree] + others;
    assert items[1..] == others;
  }

  lemma {:induction false} MembersHaveEntries(cfg: Config, s: string, last: string, done: seq<Member>)
    returns (entries: seq<Entry>, trailing: bool)
    requires NoComments(s) && ParseMembers(cfg, s, last, done).ok
    ensures AreEntries(cfg, entries) && (trailing ==> entries != [] && LastName(entries) == "") && (entries == [] ==> last == "")
    ensures Lexes(s, YieldEntries(entries, trailing), ParseMembers(cfg, s, last, done).rest)
    ensures NoComments(ParseMembers(cfg, s, last, done).rest)
    decreases |s|, 1
  {
    OneReading(cfg, s);
    var (token, more) := ReadToken(s);
    var rest := ParseMembers(cfg, s, last, done).rest;
    if token.kind == ObjectEnd {
      entries, trailing := [], false;
      MarksAreTheirTexts(s);
      LexesOne(s, Mark(ObjectEnd), rest);
    } else {
      var e, end, done' := MemberHasEntry(cfg, s, last, done);
      var others;
      others, trailing := MoreHasEntries(cfg, end, NameOf(e), done');
      LexesConcat(s, YieldEntry(e), YieldMore(others, trailing), end, rest);
      entries := [e] + others;
      assert entries[1..] == others;
      if others != [] { assert LastName(entries) == LastName(others); }
    }
  }

  lemma MemberHasEntry(cfg: Config, s: string, last: string, done: seq<Member>) returns (e: Entry, end: string, done': seq<Member>)
    requires NoComments(s) && ParseMembers(cfg, s, last, done).ok && ReadToken(s).0.kind != ObjectEnd
    ensures IsEntry(cfg, e)
    ensures Lexes(s, YieldEntry(e), end) && NoComments(end) && |end| < |s|
    ensures ParseMembers(cfg, s, last, done) == ParseMemberEnd(cfg, end, NameOf(e), done')
    decreases |s|, 0
  {
    OneReading(cfg, s);
    var (token, colon) := ReadToken(s);
    var name := DecodeString(token.text).value;
    assert ParseMembers(cfg, s, last, done) == ParseNamed(cfg, token, colon, done) == ParseColon(cfg, colon, name, done);
    var tree;
    tree, end, done' := ColonHasValue(cfg, colon, name, done);
    e := Entry(Symbol(token.kind, token.text), tree);
    TokensAreLexemes(s);
    LexesFirst(s, e.name, [Mark(MemberSeparator)] + Yield(tree), end);
  }

  lemma ColonHasValue(cfg: Config, s: string, name: string, done: seq<Member>) returns (tree: Tree, end: string, done': seq<Member>)
    requires NoComments(s) && ParseColon(cfg, s, name, done).ok
    ensures IsTree(cfg, tree) && Lexes(s, [Mark(MemberSeparator)] + Yield(tree), end) && NoComments(end) && |end| < |s|
    ensures ParseColon(cfg, s, name, done) == ParseMemberEnd(cfg, end, name, done')
    decreases |s|, 2
  {
    OneReading(cfg, s);
    assert ReadToken(s).0.kind == MemberSeparator;
    MarksAreTheirTexts(s);
    var value := ReadToken(s).1;
    var before := MemberOrNull(done, CString(name));
    var v := ParseValue(cfg, value, before);
    assert ParseColon(cfg, s, name, done) == ParseMember(cfg, value, name, done);
    assert v.ok;
    tree := ParsedHasTree(cfg, value, before);
    end, done' := v.rest, SetMember(done, CString(name), v.value);
    AfterValue(cfg, value, name, done, end, v.value);
    LexesFirst(s, Mark(MemberSeparator), Yield(tree), end);
  }

  lemma MoreHasEntries(cfg: Config, s: string, name: string, done: seq<Member>) returns (entries: seq<Entry>, trailing: bool)
    requires NoComments(s) && ParseMemberEnd(cfg, s, name, done).ok
    ensures AreEntries(cfg, entries) && (entries != [] && trailing ==> LastName(entries) == "") && (entries == [] && trailing ==> name == "")
    ensures Lexes(s, YieldMore(entries, trailing), ParseMemberEnd(cfg, s, name, done).rest)
    ensures NoComments(ParseMemberEnd(cfg, s, name, done).rest)
    decreases |s|, 2
  {
    OneReading(cfg, s);
    MarksAreTheirTexts(s);
    var (comma, more) := ReadToken(s);
    var rest := ParseMemberEnd(cfg, s, name, done).rest;
    if comma.kind == ObjectEnd {
      entries, trailing := [], false;
      LexesOne(s, Mark(ObjectEnd), rest);
    } else {
      entries, trailing := MembersHaveEntries(cfg, more, name, done);
      if entries == [] { trailing := true; }
      LexesFirst(s, Mark(ArraySeparator), YieldEntries(entries, trailing), rest);
    }
  }

  // ---------- The main result ----------

  /** The document begins with this tree; what follows it is ignored. */
  ghost predicate Generates(cfg: Config, tree: Tree, document: string, rest: string) {
    && IsTree(cfg, tree) && Lexes(document, Yield(tree), rest)
    && (cfg.strictRoot ==> tree.ArrayOf? || tree.ObjectOf?)
  }

  /**
   A document without comments is accepted exactly when the grammar generates a beginning of it, and
   then its value is the value of the tree.
   */
  lemma AcceptsExactly(cfg: Config, document: string)
    requires NoComments(document)
    ensures ParseDocument(cfg, document).ok <==> exists tree, rest :: Generates(cfg, tree, document, rest)
    ensures forall tree, rest :: Generates(cfg, tree, document, rest) ==> ParseDocument(cfg, document).value == Build(cfg, tree)
  {
    if ParseDocument(cfg, document).ok {
      var tree := ParsedHasTree(cfg, document, Null);
      TreeParses(cfg, document, tree, ParseValue(cfg, document, Null).rest, Null);
      assert Generates(cfg, tree, document, ParseValue(cfg, document, Null).rest);
    }
    forall tree, rest | Generates(cfg, tree, document, rest)
      ensures ParseDocument(cfg, document).ok && ParseDocument(cfg, document).value == Build(cfg, tree)
    {
      TreeParses(cfg, document, tree, rest, Null);
    }
  }

  // ---------- Recovery ----------

  /** After an error the reader skips just the tokens before the first of the kind it looks for, or all there are, and that one. */
  lemma {:induction false} RecoverySkips(s: string, until: Kind) returns (skipped: seq<Symbol>, last: Symbol)
    ensures Lexes(s, skipped + [last], Recover(s, until))
    ensures last.kind in {until, EndOfStream} && forall i :: 0 <= i < |skipped| ==> skipped[i].kind !in {until, EndOfStream}
    decreases |s|
  {
    var (token, rest) := ReadToken(s);
    var first := Symbol(token.kind, token.text);
    if token.kind in {until, EndOfStream} {
      skipped, last := [], first;
      LexesOne(s, first, rest);
      assert [] + [last] == [last];
    } else {
      skipped, last := RecoverySkips(rest, until);
      LexesFirst(s, first, skipped + [last], Recover(s, until));
      assert [first] + (skipped + [last]) == [first] + skipped + [last];
      skipped := [first] + skipped;
    }
  }
}
